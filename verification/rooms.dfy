/**
 * src/rooms.c: tile classification, and the live room that the game mutates
 * in place: a quarter turn done by four-way swaps with a rescan of the start
 * cell, and loading a catalog entry into the room.
 */
module Rooms {
  import opened RoomsHeader
  import opened RoomGrid

  /** The catalog `room_tile` as src/rooms.c initialises it (room 1 differs from src/rooms.h). */
  const RoomsCRoomTile: seq<Grid> := [
    [
      [Ground, Exit, Exit, Ground, Ground, Ground, Ground, Ground, Ground, Ground],
      [Ground, Air, Air, Air, Air, Air, Air, Air, Air, Ground],
      [Ground, Air, Air, Air, Air, Air, Air, Air, Air, Ground],
      [Ground, Air, Air, Air, Air, Air, Air, Air, Air, Ground],
      [Start, Air, Air, Air, Air, Air, Air, Air, Air, Ground],
      [Start, Air, Air, Air, Air, Air, Air, Air, Air, Ground],
      [Ground, Air, Air, Air, Air, Air, Air, Air, Air, Ground],
      [Ground, Air, Air, Air, Air, Air, Air, Air, Air, Ground],
      [Ground, Air, Air, Air, Air, Air, Air, Air, Air, Ground],
      [Ground, Ground, Ground, Ground, Ground, Ground, Ground, Ground, Ground, Ground]
    ],
    [
      [Ground, Ground, Ground, Ground, Ground, Ground, Ground, Ground, Ground, Ground],
      [Ground, Air, Air, Air, Air, Air, Air, Air, Air, Ground],
      [Ground, Air, Air, Air, Air, Air, Air, Air, Air, Ground],
      [Ground, Air, Air, Air, Air, Air, Air, Air, Air, Ground],
      [Ground, Air, Air, Air, Air, Air, Air, Air, Air, Exit],
      [Ground, Air, Ground, Ground, Ground, Ground, Ground, Air, Air, Exit],
      [Ground, Air, Air, Air, Air, Air, Air, Air, Air, Ground],
      [Ground, Air, Air, Air, Air, Air, Air, Air, Air, Ground],
      [Ground, Air, Air, Air, Air, Air, Air, Air, Air, Ground],
      [Ground, Start, Start, Ground, Ground, Ground, Ground, Ground, Ground, Ground]
    ]
  ]

  // ---------------------------------------------------------------------------
  // Tile classification
  // ---------------------------------------------------------------------------

  /** Only ground blocks movement. */
  function IsSolid(tile: TileType): (solid: bool)
    ensures solid <==> Code(tile) == 1
  {
    match tile
    case Ground => true
    case _ => false
  }

  /** Stalagmites and stalactites kill. */
  function IsDeath(tile: TileType): (deadly: bool)
    ensures deadly <==> Code(tile) == 4 || Code(tile) == 5
  {
    match tile
    case Stalagmite => true
    case Stalactite => true
    case _ => false
  }

  /** No tile both blocks and kills; air, exit, start and rail tiles do neither. */
  lemma TileClassification(tile: TileType)
    ensures !(IsSolid(tile) && IsDeath(tile))
    ensures IsSolid(tile) <==> tile == Ground
    ensures IsDeath(tile) <==> tile == Stalagmite || tile == Stalactite
    ensures tile in {Air, Exit, Start, Rail} ==> !IsSolid(tile) && !IsDeath(tile)
  {
  }

  // ---------------------------------------------------------------------------
  // Index arithmetic of RotateRoom and LoadRoom
  // ---------------------------------------------------------------------------

  /** The rotation counter after one more quarter turn: it wraps from 3 back to 0. */
  function NextRotation(k: int): (next: int)
    ensures next <= 3
    ensures 0 <= k <= 3 ==> next == (k + 1) % 4
    ensures 0 <= k ==> 0 <= next
  {
    if k + 1 > 3 then 0 else k + 1
  }

  /** Four more quarter turns bring an in-range counter back to where it was. */
  lemma RotationCounterCycles(k: int)
    requires 0 <= k <= 3
    ensures NextRotation(NextRotation(NextRotation(NextRotation(k)))) == k
    ensures NextRotation(k) != k
  {
  }

  /** How far index a lies from index b. */
  function Distance(a: int, b: int): nat {
    if a <= b then b - a else a - b
  }

  /** The catalog index LoadRoom uses: the valid index nearest to the one asked for. */
  function Clamped(roomNum: int): (room: int)
    ensures 0 <= room < NumRooms
    ensures forall other :: 0 <= other < NumRooms ==> Distance(room, roomNum) <= Distance(other, roomNum)
  {
    if roomNum < 0 then 0
    else if roomNum >= NumRooms then NumRooms - 1
    else roomNum
  }

  /** A valid index is used as it is. */
  lemma ClampedKeepsValidIndex(roomNum: int)
    requires 0 <= roomNum < NumRooms
    ensures Clamped(roomNum) == roomNum
  {
  }

  /** The index LoadRoom returns after loading room: the next one, wrapping to 0 after the last. */
  function FollowingRoom(room: int): (next: int)
    requires 0 <= room < NumRooms
    ensures 0 <= next < NumRooms
    ensures next == (room + 1) % NumRooms
  {
    if room + 1 < NumRooms then room + 1 else 0
  }

  /** The index requested by the n-th load when each load asks for the index the previous one returned. */
  function ExitChain(first: int, n: nat): int {
    if n == 0 then first else FollowingRoom(Clamped(ExitChain(first, n - 1)))
  }

  /** Following exits from a valid room visits the rooms in order, wrapping to 0 after the last. */
  lemma {:induction false} ExitChainInOrder(first: int, n: nat)
    requires 0 <= first < NumRooms
    ensures ExitChain(first, n) == (first + n) % NumRooms
  {
    if n > 0 {
      ExitChainInOrder(first, n - 1);
      var prev := ExitChain(first, n - 1);
      assert Clamped(prev) == prev;
    }
  }

  /**
   * How many quarter turns LoadRoom's re-rotation loop applies when the
   * counter reads k on entry: the loop bound is the counter, which each turn
   * advances and wraps, so the loop stops when the counter wraps to 0.
   */
  function ReRotations(k: int): (turns: nat)
    requires 0 <= k <= 3
    ensures turns == (4 - k) % 4
    ensures 0 < k ==> turns + k == 4
  {
    if k == 0 then 0 else 4 - k
  }

  /**
   * What LoadRoom's re-rotation does to the orientation: turning its result
   * k more times gives the untouched catalog entry, so it undoes the k turns
   * the counter recorded instead of repeating them.
   */
  lemma ReRotationUndoesTurns(g: Grid, k: int)
    requires IsRoomGrid(g) && 0 <= k <= 3
    ensures Turned(Turned(g, ReRotations(k)), k) == g
  {
    TurnedCompose(g, ReRotations(k), k);
    FourTurnsRestore(g);
  }

  /**
   * One pass of the re-rotation loop: while turns remain, the counter reads
   * k + r, stays above r, and the next turn either advances it or wraps it
   * to 0 on the last turn.
   */
  lemma ReRotationStep(k: int, r: nat)
    requires 0 <= k <= 3 && r < ReRotations(k)
    ensures r < k + r
    ensures NextRotation(k + r) == if r + 1 < ReRotations(k) then k + r + 1 else 0
  {
  }

  // ---------------------------------------------------------------------------
  // The live room
  // ---------------------------------------------------------------------------

  /** The room the game plays in: its tiles, its start cell and its rotation counter. */
  class Room {
    const tiles: array2<TileType>
    var start: Position
    var rotations: int

    /** The tile array has the room's size. */
    predicate Sized() {
      tiles.Length0 == RoomSize && tiles.Length1 == RoomSize
    }

    /** Object invariant: the counter of quarter turns stays in [0, 3]. */
    ghost predicate Valid()
      reads this
    {
      Sized() && 0 <= rotations <= 3
    }

    /** The tiles as a grid, tiles[row][col]. */
    ghost function Tiles(): (g: Grid)
      reads tiles
      requires Sized()
      ensures IsRoomGrid(g)
    {
      seq(RoomSize, r requires 0 <= r < RoomSize reads tiles =>
        seq(RoomSize, c requires 0 <= c < RoomSize reads tiles => tiles[r, c]))
    }

    /** A room as static storage starts: all air, start at (0, 0), no rotation. */
    constructor ()
      ensures Valid() && fresh(tiles)
      ensures forall r, c :: InGrid(r, c) ==> Tiles()[r][c] == Air
      ensures start == Position(0, 0) && rotations == 0
    {
      tiles := new TileType[RoomSize, RoomSize]((r, c) => Air);
      start := Position(0, 0);
      rotations := 0;
    }

    /**
     * Turn the room a quarter clockwise in place, rescan for the start cell
     * and advance the rotation counter.
     */
    method RotateRoom()
      requires Valid()
      modifies this, tiles
      ensures Valid()
      ensures Tiles() == Rotated(old(Tiles()))
      ensures StartRecorded(Tiles(), old(start), start)
      ensures rotations == NextRotation(old(rotations))
    {
      TurnTiles();
      UpdateStart();
      rotations := NextRotation(rotations);
    }

    /** The four-way swap loop of RotateRoom: one pass over the rings of the top-left quadrant. */
    method TurnTiles()
      requires Sized()
      modifies tiles
      ensures Tiles() == Rotated(old(Tiles()))
    {
      ghost var g := Tiles();
      forall r, c | InGrid(r, c)
        ensures tiles[r, c] == PartlyTurned(g, 0, 0, r, c)
      {
        PartlyTurnedBounds(g, 0, r, c);
      }
      var i := 0;
      while i < (RoomSize + 1) / 2
        invariant 0 <= i <= (RoomSize + 1) / 2
        invariant TurnedBefore(g, i, 0)
      {
        var j := 0;
        while j < RoomSize / 2
          invariant 0 <= j <= RoomSize / 2
          invariant TurnedBefore(g, i, j)
        {
          SwapRing(i, j);
          forall r, c | InGrid(r, c)
            ensures tiles[r, c] == PartlyTurned(g, i, j + 1, r, c)
          {
            PartlyTurnedStep(g, i, j, r, c);
          }
          j := j + 1;
        }
        forall r, c | InGrid(r, c)
          ensures tiles[r, c] == PartlyTurned(g, i + 1, 0, r, c)
        {
          PartlyTurnedBounds(g, i, r, c);
        }
        i := i + 1;
      }
      forall r, c | InGrid(r, c)
        ensures Tiles()[r][c] == Rotated(g)[r][c]
      {
        PartlyTurnedBounds(g, i, r, c);
      }
      GridsEqual(Tiles(), Rotated(g));
    }

    /**
     * The invariant of the swap loop, for the grid g it started from: every
     * cell holds the tile PartlyTurned gives it at loop indices (i, j).
     */
    ghost predicate TurnedBefore(g: Grid, i: int, j: int)
      reads tiles
      requires Sized() && IsRoomGrid(g)
    {
      forall r, c :: InGrid(r, c) ==> tiles[r, c] == PartlyTurned(g, i, j, r, c)
    }

    /**
     * What one step of the swap loop does: each cell of ring (i, j) takes the
     * tile of the cell a quarter turn behind it; every other cell keeps its tile.
     */
    twostate predicate RingSwapped(i: int, j: int)
      reads tiles
      requires Sized() && IsLoopIndex(i, j)
    {
      forall r, c :: InGrid(r, c) ==>
        tiles[r, c] == if InRing(i, j, r, c) then old(tiles[RoomSize - 1 - c, r]) else old(tiles[r, c])
    }

    /** One step of the swap loop: the four-way swap of ring (i, j). */
    method SwapRing(i: int, j: int)
      requires Sized() && IsLoopIndex(i, j)
      modifies tiles
      ensures RingSwapped(i, j)
    {
      var temp := tiles[RoomSize - 1 - j, i];
      tiles[RoomSize - 1 - j, i] := tiles[RoomSize - 1 - i, RoomSize - j - 1];
      tiles[RoomSize - 1 - i, RoomSize - j - 1] := tiles[j, RoomSize - 1 - i];
      tiles[j, RoomSize - 1 - i] := tiles[i, j];
      tiles[i, j] := temp;
      forall r, c | InGrid(r, c)
        ensures tiles[r, c] == if InRing(i, j, r, c) then old(tiles[RoomSize - 1 - c, r]) else old(tiles[r, c])
      {
        RingIsOrbit(i, j, r, c);
      }
    }

    /** The rescan of RotateRoom: the last Start cell in row-major order becomes the start. */
    method UpdateStart()
      requires Sized()
      modifies this`start
      ensures StartRecorded(Tiles(), old(start), start)
    {
      ghost var turned := Tiles();
      assert forall r, c :: InGrid(r, c) ==> tiles[r, c] == turned[r][c];
      var i := 0;
      while i < RoomSize
        invariant 0 <= i <= RoomSize
        invariant ScanRecorded(turned, i, 0, old(start), start)
        invariant forall r, c :: InGrid(r, c) ==> tiles[r, c] == turned[r][c]
      {
        var j := 0;
        while j < RoomSize
          invariant 0 <= j <= RoomSize
          invariant ScanRecorded(turned, i, j, old(start), start)
          invariant forall r, c :: InGrid(r, c) ==> tiles[r, c] == turned[r][c]
        {
          ScanStep(turned, i, j, old(start), start);
          if tiles[i, j] == Start {
            start := Position(j, i);
          }
          j := j + 1;
        }
        ScanNextRow(turned, i, old(start), start);
        i := i + 1;
      }
    }

    /** Copy a catalog grid into the room, recording its last start cell. */
    method CopyFromCatalog(grid: Grid)
      requires Sized() && IsRoomGrid(grid)
      modifies this`start, tiles
      ensures Tiles() == grid
      ensures StartRecorded(grid, old(start), start)
    {
      var i := 0;
      while i < RoomSize
        invariant 0 <= i <= RoomSize
        invariant forall r, c :: InGrid(r, c) && r < i ==> tiles[r, c] == grid[r][c]
        invariant ScanRecorded(grid, i, 0, old(start), start)
      {
        var j := 0;
        while j < RoomSize
          invariant 0 <= j <= RoomSize
          invariant forall r, c :: InGrid(r, c) && Precedes(r, c, i, j) ==> tiles[r, c] == grid[r][c]
          invariant ScanRecorded(grid, i, j, old(start), start)
        {
          ScanStep(grid, i, j, old(start), start);
          tiles[i, j] := grid[i][j];
          if tiles[i, j] == Start {
            start := Position(j, i);
          }
          j := j + 1;
        }
        ScanNextRow(grid, i, old(start), start);
        i := i + 1;
      }
      GridsEqual(Tiles(), grid);
    }

    /**
     * Load catalog entry roomNum (clamped) and re-apply rotations, as src/rooms.c
     * does: the loop bound is the counter RotateRoom advances, so the
     * room ends up turned ReRotations(k) times and the counter at 0.
     * Returns the index of the next room, wrapping to 0.
     */
    method LoadRoom(catalog: seq<Grid>, roomNum: int) returns (nextRoom: int)
      requires Valid() && IsCatalog(catalog)
      modifies this, tiles
      ensures Valid()
      ensures Tiles() == Turned(catalog[Clamped(roomNum)], ReRotations(old(rotations)))
      ensures rotations == 0
      ensures StartRecorded(Tiles(), old(start), start)
      ensures nextRoom == (Clamped(roomNum) + 1) % NumRooms
    {
      var room := Clamped(roomNum);
      CopyFromCatalog(catalog[room]);
      ReRotate(old(start));
      nextRoom := FollowingRoom(room);
    }

    /**
     * The re-rotation loop of LoadRoom: turn the room while the number of
     * turns made is below the counter, which each turn advances.
     */
    method ReRotate(ghost first: Position)
      requires Valid() && StartRecorded(Tiles(), first, start)
      modifies this, tiles
      ensures Valid() && rotations == 0
      ensures Tiles() == Turned(old(Tiles()), ReRotations(old(rotations)))
      ensures StartRecorded(Tiles(), first, start)
    {
      ghost var k, g := rotations, Tiles();
      ghost var turns := ReRotations(k);
      ghost var cur := g;
      var r := 0;
      while r < rotations
        invariant Valid()
        invariant 0 <= r <= turns
        invariant rotations == if r < turns then k + r else 0
        invariant Tiles() == cur
        invariant cur == Turned(g, r)
        invariant StartRecorded(cur, first, start)
        decreases turns - r
      {
        ReRotationStep(k, r);
        ghost var mid := start;
        RotateRoom();
        RotatedStartFree(cur);
        StartRecordedChain(cur, Rotated(cur), first, mid, start);
        cur := Rotated(cur);
        r := r + 1;
      }
    }

    /**
     * LoadRoom as its comment describes it: the new room is turned as many
     * times as the counter says and the counter keeps its value.
     */
    method LoadRoomKeepingOrientation(catalog: seq<Grid>, roomNum: int) returns (nextRoom: int)
      requires Valid() && IsCatalog(catalog)
      modifies this, tiles
      ensures Valid()
      ensures Tiles() == Turned(catalog[Clamped(roomNum)], old(rotations))
      ensures rotations == old(rotations)
      ensures StartRecorded(Tiles(), old(start), start)
      ensures nextRoom == (Clamped(roomNum) + 1) % NumRooms
    {
      var room := Clamped(roomNum);

      CopyFromCatalog(catalog[room]);

      var turns := rotations;
      rotations := 0;
      ghost var cur := catalog[room];
      var r := 0;
      while r < turns
        invariant Valid()
        invariant 0 <= r <= turns
        invariant rotations == r
        invariant Tiles() == cur
        invariant cur == Turned(catalog[room], r)
        invariant StartRecorded(cur, old(start), start)
      {
        ghost var mid := start;
        RotateRoom();
        RotatedStartFree(cur);
        StartRecordedChain(cur, Rotated(cur), old(start), mid, start);
        cur := Rotated(cur);
        r := r + 1;
      }

      nextRoom := FollowingRoom(room);
    }
  }
}

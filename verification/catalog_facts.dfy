/**
 * Facts about the two room catalogs (the one src/rooms.h initialises and the
 * one src/rooms.c initialises), and what loading their rooms does.
 */
module CatalogFacts {
  import opened RoomsHeader
  import opened RoomGrid
  import opened Rooms

  /** Every cell of g holds one of the tiles the catalogs use: air, ground, exit or start. */
  ghost predicate OnlyPlainTiles(g: Grid)
    requires IsRoomGrid(g)
  {
    forall r, c :: InGrid(r, c) ==> g[r][c] in {Air, Ground, Exit, Start}
  }

  /** Both catalogs hold NumRooms grids of RoomSize by RoomSize cells. */
  lemma CatalogsAreWellFormed()
    ensures IsCatalog(RoomTile)
    ensures IsCatalog(RoomsCRoomTile)
  {
  }

  /**
   * No catalog room holds a stalagmite, stalactite or rail, so no cell of a
   * freshly loaded room kills the player.
   */
  lemma CatalogTilesArePlain(k: int)
    requires 0 <= k < NumRooms
    ensures OnlyPlainTiles(RoomTile[k]) && OnlyPlainTiles(RoomsCRoomTile[k])
    ensures forall r, c :: InGrid(r, c) ==> !IsDeath(RoomTile[k][r][c]) && !IsDeath(RoomsCRoomTile[k][r][c])
  {
  }

  /** Room 0: the exit is the top wall at columns 1 and 2, the start the left wall at rows 4 and 5. */
  lemma FirstRoomLayout()
    ensures Occurrences(RoomTile[0], Exit) == {(0, 1), (0, 2)}
    ensures Occurrences(RoomTile[0], Start) == {(4, 0), (5, 0)}
    ensures RoomTile[0] == RoomsCRoomTile[0]
  {
  }

  /** Room 1 of src/rooms.h: the exit is the right wall at rows 4 and 5, the start the top wall at columns 2 and 3. */
  lemma SecondRoomLayout()
    ensures Occurrences(RoomTile[1], Exit) == {(4, 9), (5, 9)}
    ensures Occurrences(RoomTile[1], Start) == {(0, 2), (0, 3)}
  {
  }

  /** Room 1 of src/rooms.c has the same exit, but its start is the bottom wall at columns 1 and 2. */
  lemma RoomsCSecondRoomLayout()
    ensures Occurrences(RoomsCRoomTile[1], Exit) == {(4, 9), (5, 9)}
    ensures Occurrences(RoomsCRoomTile[1], Start) == {(9, 1), (9, 2)}
  {
  }

  /**
   * The start a scan records for each catalog room: the lower of the two
   * start cells of room 0, the right-hand one of room 1.
   */
  lemma CatalogLastStarts()
    ensures IsLastStart(RoomTile[0], Position(0, 5))
    ensures IsLastStart(RoomTile[1], Position(3, 0))
    ensures IsLastStart(RoomsCRoomTile[1], Position(2, 9))
  {
  }

  /**
   * Loading room 0 into a room that was never turned: the tiles are the
   * catalog entry, the start is its lower start cell (column 0, row 5) and
   * the next room is room 1.
   */
  method LoadFirstRoom() returns (start: Position, nextRoom: int, rotations: int)
    ensures start == Position(0, 5)
    ensures nextRoom == 1
    ensures rotations == 0
  {
    var room := new Room();
    CatalogsAreWellFormed();
    nextRoom := room.LoadRoom(RoomTile, 0);
    start, rotations := room.start, room.rotations;
    CatalogLastStarts();
    LastStartUnique(RoomTile[0], start, Position(0, 5));
  }

  /**
   * The re-rotation loop of LoadRoom does not keep the orientation: after one
   * quarter turn, loading room 0 leaves it turned three times, which differs
   * from room 0 turned once at row 1, column 9 (ground instead of exit).
   */
  lemma ReRotationMisorients()
    ensures ReRotations(1) == 3
    ensures Turned(RoomTile[0], ReRotations(1))[1][9] == Ground
    ensures Turned(RoomTile[0], 1)[1][9] == Exit
  {
    CatalogsAreWellFormed();
    TurnedCell(RoomTile[0], 3, 1, 9);
    TurnedCell(RoomTile[0], 1, 1, 9);
  }

  /**
   * The game turns the room once and the player takes the exit into room 0:
   * as written, LoadRoom leaves row 1, column 9 holding ground and the
   * counter at 0, where room 0 turned once has its exit.
   */
  method LoadAfterOneTurn() returns (tile: TileType, counter: int)
    ensures tile == Ground
    ensures counter == 0
  {
    CatalogsAreWellFormed();
    var room := new Room();
    room.RotateRoom();
    var _ := room.LoadRoom(RoomTile, 0);
    assert room.Tiles() == Turned(RoomTile[0], 3);
    ReRotationMisorients();
    tile, counter := room.tiles[1, 9], room.rotations;
  }

  /** The same steps with the orientation kept: the exit is at row 1, column 9 and the counter stays 1. */
  method LoadKeepingOrientationAfterOneTurn() returns (tile: TileType, counter: int)
    ensures tile == Exit
    ensures counter == 1
  {
    CatalogsAreWellFormed();
    var room := new Room();
    room.RotateRoom();
    var _ := room.LoadRoomKeepingOrientation(RoomTile, 0);
    assert room.Tiles() == Turned(RoomTile[0], 1);
    ReRotationMisorients();
    tile, counter := room.tiles[1, 9], room.rotations;
  }
}

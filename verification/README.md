# Room grid of left_up_right_down, in Dafny

This project models the room kernel of the platformer *left_up_right_down*. The kernel lives in
`src/rooms.h` and `src/rooms.c`. A room is a 10 by 10 grid of tiles, and the game keeps one live
room that it changes in place. The room also records its start cell and a counter of quarter turns.

- `RotateRoom` turns the live grid a quarter turn clockwise. It does this in place, with one
  four-way swap per ring of cells. It then rescans the grid for the start cell and advances the
  counter, which wraps from 3 to 0.
- `LoadRoom` clamps the requested index into the catalog and copies that catalog entry into the
  live grid, recording the start cell as it copies. It then calls `RotateRoom` while the loop
  index is below the counter, and returns the index of the next room, wrapping to 0.
- `IsSolid` and `IsDeath` classify tiles.

The model has four modules:

- `RoomsHeader` (`rooms_header.dfy`) holds the tile kinds with their integer codes, the
  constants, and the catalog as `src/rooms.h` initialises it.
- `RoomGrid` (`room_grid.dfy`) is the specification side, on plain values:
  - what a quarter turn of a grid is, and `k` turns;
  - the rings of four cells that one swap step cycles;
  - the row-major scan for the last `Start` cell;
  - per-tile counts of cells, which stand for the grid's multiset of tiles.
- `Rooms` (`rooms.dfy`) holds the catalog as `src/rooms.c` initialises it and the tile
  classification. It also holds the live room as a class `Room`, whose `tiles` field is a
  two-dimensional array. `RotateRoom` and `LoadRoom` are methods on that class. Their loops keep
  the source's bounds and statements and are proved against the `RoomGrid` functions.
- `CatalogFacts` (`catalog_facts.dfy`) holds facts about both catalogs and concrete loads.

`src/rooms.h` and `src/rooms.c` each define `room_tile`, and the two definitions disagree on
room 1. The `.h` file puts that room's start on the top wall; the `.c` file puts it on the bottom
wall. The model keeps both catalogs (`RoomTile` and `RoomsCRoomTile`), and `LoadRoom` takes the
catalog as a parameter.

The record `start` is the last `Start` cell in row-major order, because the scan overwrites it at
every match. Every catalog room has two `Start` cells, so the start cell is not unique. For room 0
the start is therefore column 0, row 5 (`CatalogFacts.LoadFirstRoom`).

## Model

| member | source | states |
|---|---|---|
| RoomsHeader.Code | src/rooms.h:9-17 | each tile kind's code is the value the enumeration gives it, in 0..6 |
| RoomsHeader.FromCode | src/rooms.h:9-17 | an integer decodes to a tile kind exactly when it is one of the enumeration's codes 0..6, and to the kind with that code |
| RoomsHeader.CodeRoundTrip | src/rooms.h:9-17 | different tile kinds have different codes, and decoding a kind's code gives the kind back |
| Rooms.IsSolid | src/rooms.c:24-34 | a tile is solid exactly when its code is 1 (ground) |
| Rooms.IsDeath | src/rooms.c:36-49 | a tile kills exactly when its code is 4 or 5 (stalagmite, stalactite) |
| Rooms.TileClassification | src/rooms.c:24-49 | no tile is both solid and deadly; solid means ground; deadly means stalagmite or stalactite; air, exit, start and rail are neither |
| RoomGrid.Rotated | src/rooms.c:51-60 | a quarter turn of a room-sized grid is again room-sized |
| RoomGrid.RotatedMoves | src/rooms.c:51-60 | the turn is clockwise: the tile at row r, column c moves to row c, column RoomSize-1-r |
| RoomGrid.RotatedCell | src/rooms.c:54-58 | after a turn, cell (r, c) holds the old tile of cell (RoomSize-1-c, r) |
| RoomGrid.Turned | src/rooms.c:91-93 | any number of quarter turns of a room-sized grid is room-sized |
| RoomGrid.TurnedCell | src/rooms.c:51-60 | after k turns, every cell holds the tile of one of four closed-form source cells chosen by k mod 4, and that cell lies in the grid |
| RoomGrid.FourTurnsRestore | src/rooms.c:51-73 | four quarter turns give back the original grid, which is the period of the counter's wrap |
| RoomGrid.TurnedCompose | src/rooms.c:91-93 | a turns followed by b turns are a+b turns |
| RoomGrid.TurnedPeriod | src/rooms.c:72 | k turns equal k mod 4 turns |
| RoomGrid.RingIsOrbit | src/rooms.c:54-58 | the cells one swap step cycles form an orbit of the quarter turn; for loop indices they are four different cells |
| RoomGrid.RingOf | src/rooms.c:52-53 | every cell lies in the ring of some index pair that the swap loop visits |
| RoomGrid.RingsPartitionGrid | src/rooms.c:52-58 | a cell lies in the ring of a loop index pair exactly when that pair is its RingOf, so each cell is swapped exactly once; a ring cell's new tile comes from the same ring |
| RoomGrid.PartlyTurnedStep | src/rooms.c:54-58 | one swap step moves the swap loop one ring further: the ring's cells take the tile a quarter turn behind them and the other cells keep theirs |
| RoomGrid.PartlyTurnedBounds | src/rooms.c:52-60 | before the swap loop every cell holds its own tile; after its last index pair every cell holds its turned tile |
| RoomGrid.ScanStep | src/rooms.c:63-70 | one scan step keeps "the start is the last Start cell seen so far, or the old start if none was seen" |
| RoomGrid.ScanNextRow | src/rooms.c:63-64 | the end of one row of the scan is the beginning of the next |
| RoomGrid.LastStartUnique | src/rooms.c:62-70 | a grid has at most one last Start cell, so a scan's result is determined |
| RoomGrid.RotatedStartFree | src/rooms.c:51-70 | a quarter turn keeps whether the grid has any Start tile |
| RoomGrid.TurnedStartFree | src/rooms.c:91-93 | the same holds for any number of turns |
| RoomGrid.StartRecordedChain | src/rooms.c:84-92 | two scans in a row record what one scan of the second grid records, when both grids have Start tiles or both lack them |
| RoomGrid.MovedCardinality | src/rooms.c:54-58 | moving each cell of a set by a quarter turn keeps the set's size |
| RoomGrid.OccurrencesMovedFrom | src/rooms.c:51-60 | each cell holding tile t after a turn was a cell holding t before it, moved |
| RoomGrid.OccurrencesMovedTo | src/rooms.c:51-60 | each cell holding t before a turn holds t after it once moved |
| RoomGrid.RotatedTileCount | src/rooms.c:51-60 | a quarter turn keeps the number of cells of every tile kind, so the multiset of tiles is unchanged |
| RoomGrid.TurnedTileCount | src/rooms.c:91-93 | the same holds for any number of turns |
| Rooms.NextRotation | src/rooms.c:72 | the counter update maps k in 0..3 to (k+1) mod 4 and never exceeds 3 |
| Rooms.RotationCounterCycles | src/rooms.c:72 | four updates bring the counter back, and one update always changes it |
| Rooms.Clamped | src/rooms.c:77-78 | the index used is a valid catalog index, and the valid index nearest to the one asked for |
| Rooms.ClampedKeepsValidIndex | src/rooms.c:77-78 | a valid index is used unchanged |
| Rooms.FollowingRoom | src/rooms.c:101-105 | the returned index is valid and is (room+1) mod NumRooms |
| Rooms.ExitChainInOrder | src/rooms.c:75-106 | loading each returned index in turn visits the rooms in order from any valid first room, wrapping after the last |
| Rooms.ReRotations | src/rooms.c:91-93 | from a counter k the re-rotation loop runs (4-k) mod 4 times; for k > 0 that is 4-k turns |
| Rooms.ReRotationUndoesTurns | src/rooms.c:90-93 | turning the reloaded room k more times gives the catalog entry back, so the loop undoes the recorded orientation instead of repeating it |
| Rooms.ReRotationStep | src/rooms.c:91-93 | while turns remain, the counter k+r is above the loop index r, and one more turn advances it or, on the last turn, wraps it to 0 |
| Rooms.Room.RotateRoom | src/rooms.c:51-73 | the tiles become the quarter turn of the old tiles; the start is the last Start cell of the new grid, or the old start if there is none; the counter becomes NextRotation of the old one |
| Rooms.Room.TurnTiles | src/rooms.c:52-60 | the swap loop leaves the quarter turn of the grid it started from |
| Rooms.Room.SwapRing | src/rooms.c:54-58 | each cell of ring (i, j) takes the old tile of the cell a quarter turn behind it, and every other cell keeps its tile |
| Rooms.Room.UpdateStart | src/rooms.c:62-70 | the start becomes the last Start cell in row-major order, or stays as it was when the grid has none |
| Rooms.Room.CopyFromCatalog | src/rooms.c:80-89 | the tiles become the catalog grid, and the start is recorded as the scan records it |
| Rooms.Room.LoadRoom | src/rooms.c:75-106 | the tiles are the clamped catalog entry turned ReRotations(k) times, where k is the counter on entry; the counter ends at 0; the start is the new grid's last Start cell, or unchanged if it has none; the result is (clamped index + 1) mod NumRooms |
| Rooms.Room.ReRotate | src/rooms.c:90-93 | the loop whose bound is the counter turns the room ReRotations(k) times, leaves the counter at 0, and keeps the recorded start consistent with the grid |
| Rooms.Room.LoadRoomKeepingOrientation | src/rooms.c:75-106 | corrected load: the tiles are the clamped catalog entry turned k times, and the counter keeps its value k |
| CatalogFacts.CatalogsAreWellFormed | src/rooms.h:24-43 | the catalog of src/rooms.h, and the one at src/rooms.c lines 3-22, each hold NumRooms grids of RoomSize by RoomSize cells |
| CatalogFacts.CatalogTilesArePlain | src/rooms.c:3-22 | catalog rooms hold only air, ground, exit and start tiles, so no cell of a loaded room kills (both catalogs) |
| CatalogFacts.FirstRoomLayout | src/rooms.h:24-33 | room 0's exit is exactly the top-wall cells at columns 1 and 2, and its start cells are exactly the left-wall cells at rows 4 and 5; both catalogs agree on room 0 |
| CatalogFacts.SecondRoomLayout | src/rooms.h:34-43 | room 1's exit is exactly the right-wall cells at rows 4 and 5, and its start cells are exactly the top-wall cells at columns 2 and 3 |
| CatalogFacts.RoomsCSecondRoomLayout | src/rooms.c:13-22 | room 1 of src/rooms.c has the same exit, but its start cells are the bottom-wall cells at columns 1 and 2 |
| CatalogFacts.CatalogLastStarts | src/rooms.c:84-87 | the recorded start is (x 0, y 5) for room 0, (x 3, y 0) for room 1 of src/rooms.h and (x 2, y 9) for room 1 of src/rooms.c |
| CatalogFacts.LoadFirstRoom | src/rooms.c:75-106 | loading room 0 into a fresh room records start (x 0, y 5), returns 1 and leaves the counter at 0 |
| CatalogFacts.ReRotationMisorients | src/rooms.c:90-93 | from counter 1 the loop turns the room 3 times, and room 0 turned 3 times differs from room 0 turned once at row 1, column 9 (ground against exit) |
| CatalogFacts.LoadAfterOneTurn | src/rooms.c:90-93 | after one turn, loading room 0 as written leaves ground at row 1, column 9 and the counter at 0 |
| CatalogFacts.LoadKeepingOrientationAfterOneTurn | src/rooms.c:90-93 | the corrected load puts the exit at row 1, column 9 and keeps the counter at 1 |

## Left out

- Background regeneration at `src/rooms.c:94-99` is not modelled. It fills the background with random values, and the background is not part of this model.
- The `Tile` record of `src/rooms.h:19-22` is not modelled. It pairs a tile kind with a texture. `Scalar` and `TileSize` are only declared.
- The declaration of the `Room` record is not part of this model. Its fields are the ones `src/rooms.c` uses: tiles, start, rotations and background. `Rooms.Room.constructor` gives the all-air, zero-counter state of zero-initialised storage.
- `Rooms.Room.LoadRoom` and `Rooms.Room.RotateRoom` require the counter to be in 0..3. That is the class invariant `Valid`: the counter only ever changes through the wrap at `src/rooms.c:72`. From a counter outside that range the C loop would behave differently, and that behaviour is not modelled.
- C `int` overflow is not modelled. After clamping, the indices and the counter stay below 5.
- The duplicate definition of `room_tile` is not modelled as a build failure. Defining it in both the header and `src/rooms.c` would not compile as one translation unit. Instead, `LoadRoom` is parameterised over the catalog.
- `src/screen_gameplay.c` is not part of this model: the player, collision handling, moving the player to the new start, and the screen loop. `src/screen_title.c` is not part of it either.
- `src/test.c` is not part of this model. It is a separate program that rotates an 8 by 8 grid with floating-point trigonometry.

## Findings

| source | as written | input that shows it | evidently intended | confidence | as-written member | corrected member |
|---|---|---|---|---|---|---|
| src/rooms.c:90-93 | the re-rotation loop compares its index with `dyn_room->rotations`, which every `RotateRoom` call advances and wraps; from a counter k > 0 the new room is turned 4-k times and the counter ends at 0 | counter 1 (one earlier turn), then load room 0: the room is turned 3 times, row 1, column 9 holds ground instead of the exit, and the counter reads 0 | turn the new room k times and keep the counter at k, so the next room has the orientation of the room just left ("Rotate room to match previous") | not executed | Rooms.Room.LoadRoom, CatalogFacts.ReRotationMisorients, CatalogFacts.LoadAfterOneTurn | Rooms.Room.LoadRoomKeepingOrientation, CatalogFacts.LoadKeepingOrientationAfterOneTurn |

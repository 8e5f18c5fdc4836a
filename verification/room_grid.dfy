/**
 * The specification side of the room grid: what a quarter turn of a grid is,
 * which cells one step of the in-place swap cycles, and what "the start cell"
 * of a grid is. The operations of src/rooms.c are proved against these.
 */
module RoomGrid {
  import opened RoomsHeader

  /** A cell coordinate as a room records it: x is the column, y the row. */
  datatype Position = Position(x: int, y: int)

  predicate InGrid(r: int, c: int) {
    0 <= r < RoomSize && 0 <= c < RoomSize
  }

  /** Two grids of room size are equal when they agree on every cell. */
  lemma GridsEqual(g: Grid, h: Grid)
    requires IsRoomGrid(g) && IsRoomGrid(h)
    requires forall r, c :: InGrid(r, c) ==> g[r][c] == h[r][c]
    ensures g == h
  {
    forall r | 0 <= r < RoomSize
      ensures g[r] == h[r]
    {
      assert forall c :: 0 <= c < RoomSize ==> g[r][c] == h[r][c];
    }
  }

  // ---------------------------------------------------------------------------
  // Quarter turns
  // ---------------------------------------------------------------------------

  /** The cell a tile at p moves to under one clockwise quarter turn. */
  function MoveCell(p: (int, int)): (q: (int, int)) {
    (p.1, RoomSize - 1 - p.0)
  }

  /** The grid turned a quarter clockwise (see RotatedMoves). */
  function Rotated(g: Grid): (h: Grid)
    requires IsRoomGrid(g)
    ensures IsRoomGrid(h)
  {
    seq(RoomSize, r requires 0 <= r < RoomSize =>
      seq(RoomSize, c requires 0 <= c < RoomSize => g[RoomSize - 1 - c][r]))
  }

  /**
   * A quarter turn moves the tile at (row, col) to (col, RoomSize - 1 - row),
   * and every cell of the turned grid is filled that way. The first clause
   * only unfolds Rotated; it names the forward move the swap loop performs.
   */
  lemma RotatedMoves(g: Grid)
    requires IsRoomGrid(g)
    ensures forall r, c :: InGrid(r, c) ==> Rotated(g)[c][RoomSize - 1 - r] == g[r][c]
    ensures forall r, c :: InGrid(r, c) ==> MoveCell((RoomSize - 1 - c, r)) == (r, c)
  {
  }

  /** The grid after k clockwise quarter turns. */
  function Turned(g: Grid, k: nat): (h: Grid)
    requires IsRoomGrid(g)
    ensures IsRoomGrid(h)
    decreases k
  {
    if k == 0 then g else Rotated(Turned(g, k - 1))
  }

  /** The cell whose tile sits at (r, c) after k clockwise quarter turns. */
  function SourceCell(k: nat, r: int, c: int): (int, int) {
    if k % 4 == 0 then (r, c)
    else if k % 4 == 1 then (RoomSize - 1 - c, r)
    else if k % 4 == 2 then (RoomSize - 1 - r, RoomSize - 1 - c)
    else (c, RoomSize - 1 - r)
  }

  /**
   * The tile at (r, c) of the turned grid comes from (RoomSize - 1 - c, r).
   * This only unfolds Rotated at one cell, as a named step for other proofs.
   */
  lemma RotatedCell(g: Grid, r: int, c: int)
    requires IsRoomGrid(g) && InGrid(r, c)
    ensures Rotated(g)[r][c] == g[RoomSize - 1 - c][r]
  {
  }

  /** One more turn reads the source cell of the previous turns at the rotated coordinates. */
  lemma SourceCellStep(k: nat, r: int, c: int)
    ensures SourceCell(k + 1, r, c) == SourceCell(k, RoomSize - 1 - c, r)
  {
  }

  /** Closed form of k quarter turns, cell by cell. */
  lemma {:induction false} TurnedCell(g: Grid, k: nat, r: int, c: int)
    requires IsRoomGrid(g) && InGrid(r, c)
    ensures InGrid(SourceCell(k, r, c).0, SourceCell(k, r, c).1)
    ensures Turned(g, k)[r][c] == g[SourceCell(k, r, c).0][SourceCell(k, r, c).1]
  {
    if k > 0 {
      RotatedCell(Turned(g, k - 1), r, c);
      TurnedCell(g, k - 1, RoomSize - 1 - c, r);
      SourceCellStep(k - 1, r, c);
    }
  }

  /** Four quarter turns restore every grid: rotation is a group of order 4. */
  lemma FourTurnsRestore(g: Grid)
    requires IsRoomGrid(g)
    ensures Turned(g, 4) == g
    ensures Rotated(Rotated(Rotated(Rotated(g)))) == g
  {
    forall r, c | InGrid(r, c)
      ensures Turned(g, 4)[r][c] == g[r][c]
    {
      TurnedCell(g, 4, r, c);
    }
    GridsEqual(Turned(g, 4), g);
  }

  /** Turning a turned grid adds the numbers of turns. */
  lemma {:induction false} TurnedCompose(g: Grid, a: nat, b: nat)
    requires IsRoomGrid(g)
    ensures Turned(Turned(g, a), b) == Turned(g, a + b)
    decreases b
  {
    if b > 0 {
      TurnedCompose(g, a, b - 1);
    }
  }

  /** Turning depends only on the number of turns modulo 4. */
  lemma {:induction false} TurnedPeriod(g: Grid, k: nat)
    requires IsRoomGrid(g)
    ensures Turned(g, k) == Turned(g, k % 4)
    decreases k
  {
    if k >= 4 {
      TurnedCompose(g, 4, k - 4);
      FourTurnsRestore(g);
      TurnedPeriod(g, k - 4);
    }
  }

  // ---------------------------------------------------------------------------
  // The in-place swap: rings of four cells
  // ---------------------------------------------------------------------------

  /** The swap loop's indices range over i < (RoomSize + 1) / 2, j < RoomSize / 2. */
  predicate IsLoopIndex(i: int, j: int) {
    0 <= i < (RoomSize + 1) / 2 && 0 <= j < RoomSize / 2
  }

  /**
   * Cell (r, c) lies in the ring of loop indices (i, j): the orbit of cell
   * (i, j) under the quarter turn, whose four cells one swap step cycles.
   */
  predicate InRing(i: int, j: int, r: int, c: int) {
    || (r, c) == (i, j)
    || (r, c) == MoveCell((i, j))
    || (r, c) == MoveCell(MoveCell((i, j)))
    || (r, c) == MoveCell(MoveCell(MoveCell((i, j))))
  }

  /**
   * A ring is closed under the quarter turn, four moves bring a cell back,
   * and the ring of a loop index has four different cells.
   */
  lemma RingIsOrbit(i: int, j: int, r: int, c: int)
    ensures MoveCell(MoveCell(MoveCell(MoveCell((i, j))))) == (i, j)
    ensures InRing(i, j, r, c) ==> InRing(i, j, MoveCell((r, c)).0, MoveCell((r, c)).1)
    ensures IsLoopIndex(i, j) ==>
      && (i, j) != MoveCell((i, j))
      && (i, j) != MoveCell(MoveCell((i, j)))
      && (i, j) != MoveCell(MoveCell(MoveCell((i, j))))
      && MoveCell((i, j)) != MoveCell(MoveCell((i, j)))
      && MoveCell((i, j)) != MoveCell(MoveCell(MoveCell((i, j))))
      && MoveCell(MoveCell((i, j))) != MoveCell(MoveCell(MoveCell((i, j))))
  {
  }

  /** The loop indices whose ring holds cell (r, c). */
  function RingOf(r: int, c: int): (ij: (int, int))
    requires InGrid(r, c)
    ensures IsLoopIndex(ij.0, ij.1)
    ensures InRing(ij.0, ij.1, r, c)
  {
    if r < RoomSize / 2 && c < RoomSize / 2 then (r, c)
    else if r < RoomSize / 2 then (RoomSize - 1 - c, r)
    else if c >= RoomSize / 2 then (RoomSize - 1 - r, RoomSize - 1 - c)
    else (c, RoomSize - 1 - r)
  }

  /**
   * The swap loop visits every cell exactly once: a cell lies in the ring of
   * a loop index exactly when that index is RingOf the cell; the tile a ring
   * cell receives comes from a cell of the same ring.
   */
  lemma RingsPartitionGrid(i: int, j: int, r: int, c: int)
    requires IsLoopIndex(i, j) && InGrid(r, c)
    ensures InRing(i, j, r, c) <==> RingOf(r, c) == (i, j)
    ensures InRing(i, j, r, c) ==> InRing(i, j, RoomSize - 1 - c, r)
  {
  }

  /**
   * The tile the swap loop has put in cell (r, c) of grid g once it has
   * cycled every ring before loop indices (i, j): the turned tile for cells
   * of those rings, the tile of g for the rest.
   */
  function PartlyTurned(g: Grid, i: int, j: int, r: int, c: int): TileType
    requires IsRoomGrid(g) && InGrid(r, c)
  {
    if Precedes(RingOf(r, c).0, RingOf(r, c).1, i, j) then g[RoomSize - 1 - c][r] else g[r][c]
  }

  /**
   * Cycling ring (i, j) advances the loop by one ring: its cells take the
   * tile of the cell a quarter turn behind them, the other cells keep theirs.
   */
  lemma PartlyTurnedStep(g: Grid, i: int, j: int, r: int, c: int)
    requires IsRoomGrid(g) && IsLoopIndex(i, j) && InGrid(r, c)
    ensures PartlyTurned(g, i, j + 1, r, c) ==
      if InRing(i, j, r, c) then PartlyTurned(g, i, j, RoomSize - 1 - c, r) else PartlyTurned(g, i, j, r, c)
  {
    RingsPartitionGrid(i, j, r, c);
    RingsPartitionGrid(i, j, RoomSize - 1 - c, r);
  }

  /**
   * Before the loop every cell holds its own tile; the end of one row of
   * loop indices is the start of the next; after the last row every cell
   * holds its turned tile.
   */
  lemma PartlyTurnedBounds(g: Grid, i: int, r: int, c: int)
    requires IsRoomGrid(g) && InGrid(r, c)
    ensures PartlyTurned(g, 0, 0, r, c) == g[r][c]
    ensures PartlyTurned(g, i, RoomSize / 2, r, c) == PartlyTurned(g, i + 1, 0, r, c)
    ensures PartlyTurned(g, (RoomSize + 1) / 2, 0, r, c) == Rotated(g)[r][c]
  {
    RotatedCell(g, r, c);
  }

  // ---------------------------------------------------------------------------
  // The start cell: the last Start tile in row-major order
  // ---------------------------------------------------------------------------

  /** Cell (r, c) comes before cell (i, j) in row-major order. */
  predicate Precedes(r: int, c: int, i: int, j: int) {
    r < i || (r == i && c < j)
  }

  /** No cell before (i, j) in row-major order holds Start. */
  ghost predicate StartFreeBefore(g: Grid, i: int, j: int)
    requires IsRoomGrid(g)
  {
    forall r, c :: InGrid(r, c) && Precedes(r, c, i, j) ==> g[r][c] != Start
  }

  /** p is the last cell before (i, j) in row-major order that holds Start. */
  ghost predicate IsLastStartBefore(g: Grid, i: int, j: int, p: Position)
    requires IsRoomGrid(g)
  {
    InGrid(p.y, p.x) && Precedes(p.y, p.x, i, j) && g[p.y][p.x] == Start &&
    forall r, c :: InGrid(r, c) && Precedes(p.y, p.x, r, c) && Precedes(r, c, i, j) ==> g[r][c] != Start
  }

  /** What a row-major scan of the cells before (i, j) leaves in `start`, when it began as `before`. */
  ghost predicate ScanRecorded(g: Grid, i: int, j: int, before: Position, p: Position)
    requires IsRoomGrid(g)
  {
    if StartFreeBefore(g, i, j) then p == before else IsLastStartBefore(g, i, j, p)
  }

  /** Scanning one more cell of a row: a Start tile there becomes the recorded cell. */
  lemma ScanStep(g: Grid, i: int, j: int, before: Position, p: Position)
    requires IsRoomGrid(g) && InGrid(i, j)
    requires ScanRecorded(g, i, j, before, p)
    ensures ScanRecorded(g, i, j + 1, before, if g[i][j] == Start then Position(j, i) else p)
  {
    if g[i][j] == Start {
      assert !StartFreeBefore(g, i, j + 1);
    } else if !StartFreeBefore(g, i, j) {
      assert IsLastStartBefore(g, i, j, p);
    }
  }

  /** A scan that finished row i has scanned everything before row i + 1. */
  lemma ScanNextRow(g: Grid, i: int, before: Position, p: Position)
    requires IsRoomGrid(g)
    requires ScanRecorded(g, i, RoomSize, before, p)
    ensures ScanRecorded(g, i + 1, 0, before, p)
  {
    assert StartFreeBefore(g, i, RoomSize) <==> StartFreeBefore(g, i + 1, 0);
  }

  /** No cell of the grid holds Start. */
  ghost predicate StartFree(g: Grid)
    requires IsRoomGrid(g)
  {
    StartFreeBefore(g, RoomSize, 0)
  }

  /** p is the last Start cell of the whole grid in row-major order. */
  ghost predicate IsLastStart(g: Grid, p: Position)
    requires IsRoomGrid(g)
  {
    IsLastStartBefore(g, RoomSize, 0, p)
  }

  /** What a full scan records: the last Start cell, or `before` when there is none. */
  ghost predicate StartRecorded(g: Grid, before: Position, p: Position)
    requires IsRoomGrid(g)
  {
    ScanRecorded(g, RoomSize, 0, before, p)
  }

  /** A grid has at most one last Start cell, so a scan's result is determined. */
  lemma LastStartUnique(g: Grid, p: Position, q: Position)
    requires IsRoomGrid(g)
    requires IsLastStart(g, p) && IsLastStart(g, q)
    ensures p == q
  {
  }

  /** A quarter turn moves Start tiles but neither creates nor removes them all. */
  lemma RotatedStartFree(g: Grid)
    requires IsRoomGrid(g)
    ensures StartFree(Rotated(g)) <==> StartFree(g)
  {
    var h := Rotated(g);
    RotatedMoves(g);
    forall r, c | InGrid(r, c)
      ensures h[r][c] == g[RoomSize - 1 - c][r]
    {
      RotatedCell(g, r, c);
    }
  }

  /** Any number of quarter turns neither creates nor removes Start tiles. */
  lemma {:induction false} TurnedStartFree(g: Grid, k: nat)
    requires IsRoomGrid(g)
    ensures StartFree(Turned(g, k)) <==> StartFree(g)
  {
    if k > 0 {
      TurnedStartFree(g, k - 1);
      RotatedStartFree(Turned(g, k - 1));
    }
  }

  /**
   * Two scans in a row, of grids that both have or both lack a Start tile,
   * record what one scan of the second grid from the first starting value
   * records.
   */
  lemma StartRecordedChain(g: Grid, h: Grid, first: Position, mid: Position, last: Position)
    requires IsRoomGrid(g) && IsRoomGrid(h)
    requires StartFree(h) <==> StartFree(g)
    requires StartRecorded(g, first, mid)
    requires StartRecorded(h, mid, last)
    ensures StartRecorded(h, first, last)
  {
  }

  // ---------------------------------------------------------------------------
  // The multiset of tile values
  // ---------------------------------------------------------------------------

  /** The cells of g that hold tile t. */
  ghost function Occurrences(g: Grid, t: TileType): set<(int, int)>
    requires IsRoomGrid(g)
  {
    set r, c | 0 <= r < RoomSize && 0 <= c < RoomSize && g[r][c] == t :: (r, c)
  }

  /** How many cells of g hold tile t: the multiplicity of t in the grid's multiset of tiles. */
  ghost function TileCount(g: Grid, t: TileType): nat
    requires IsRoomGrid(g)
  {
    |Occurrences(g, t)|
  }

  /** Moving every cell of a set one quarter turn keeps the set's size. */
  lemma {:induction false} MovedCardinality(s: set<(int, int)>)
    ensures |set p | p in s :: MoveCell(p)| == |s|
  {
    if s != {} {
      var p :| p in s;
      var rest := s - {p};
      MovedCardinality(rest);
      assert (set q | q in s :: MoveCell(q)) == (set q | q in rest :: MoveCell(q)) + {MoveCell(p)};
      assert MoveCell(p) !in (set q | q in rest :: MoveCell(q));
    }
  }

  /** Every cell holding t after a quarter turn is a cell that held t, moved. */
  lemma OccurrencesMovedFrom(g: Grid, t: TileType)
    requires IsRoomGrid(g)
    ensures Occurrences(Rotated(g), t) <= set p | p in Occurrences(g, t) :: MoveCell(p)
  {
    forall q | q in Occurrences(Rotated(g), t)
      ensures q in set p | p in Occurrences(g, t) :: MoveCell(p)
    {
      var p := (RoomSize - 1 - q.1, q.0);
      RotatedCell(g, q.0, q.1);
      assert p in Occurrences(g, t) && MoveCell(p) == q;
    }
  }

  /** Every cell that held t, moved a quarter turn, holds t after the turn. */
  lemma OccurrencesMovedTo(g: Grid, t: TileType)
    requires IsRoomGrid(g)
    ensures (set p | p in Occurrences(g, t) :: MoveCell(p)) <= Occurrences(Rotated(g), t)
  {
    forall p | p in Occurrences(g, t)
      ensures MoveCell(p) in Occurrences(Rotated(g), t)
    {
      RotatedCell(g, p.1, RoomSize - 1 - p.0);
    }
  }

  /** A quarter turn permutes cells: each tile value occurs as often as before. */
  lemma RotatedTileCount(g: Grid, t: TileType)
    requires IsRoomGrid(g)
    ensures TileCount(Rotated(g), t) == TileCount(g, t)
  {
    OccurrencesMovedFrom(g, t);
    OccurrencesMovedTo(g, t);
    assert Occurrences(Rotated(g), t) == set p | p in Occurrences(g, t) :: MoveCell(p);
    MovedCardinality(Occurrences(g, t));
  }

  /** Any number of quarter turns keeps the multiset of tile values. */
  lemma {:induction false} TurnedTileCount(g: Grid, k: nat, t: TileType)
    requires IsRoomGrid(g)
    ensures TileCount(Turned(g, k), t) == TileCount(g, t)
  {
    if k > 0 {
      TurnedTileCount(g, k - 1, t);
      RotatedTileCount(Turned(g, k - 1), t);
    }
  }
}

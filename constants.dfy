/**
 * The static tables of the board: player order, the 52-slot shared track and
 * its grid cells, each colour's home row, home triangle and base cells, the
 * start spots, the home-entry points and the safe spots.
 */
module Constants {
  import opened Wrappers

  datatype Color = Red | Green | Yellow | Blue

  datatype Player = Player(color: Color, name: string)

  /** Turn order: the index into this list is the current player index. */
  const Players: seq<Player> := [
    Player(Red, "Player 1"),
    Player(Green, "Player 2"),
    Player(Yellow, "Player 3"),
    Player(Blue, "Player 4")
  ]

  const BoardSize: int := 15

  /** Number of slots on the shared circular track (the modulus of a track move). */
  const TrackLength: int := 52

  /** A grid cell as (row, column). */
  type Cell = (int, int)

  /** Grid cell of each track slot, slot 0 first. */
  const TrackCoords: seq<Cell> :=
    [(6,1), (6,2), (6,3), (6,4), (6,5)] +               // 0-4
    [(5,6), (4,6), (3,6), (2,6), (1,6), (0,6)] +        // 5-10
    [(0,7)] +                                           // 11
    [(0,8), (1,8), (2,8), (3,8), (4,8), (5,8)] +        // 12-17
    [(6,9), (6,10), (6,11), (6,12), (6,13), (6,14)] +   // 18-23
    [(7,14)] +                                          // 24
    [(8,14), (8,13), (8,12), (8,11), (8,10), (8,9)] +   // 25-30
    [(9,8), (10,8), (11,8), (12,8), (13,8), (14,8)] +   // 31-36
    [(14,7)] +                                          // 37
    [(14,6), (13,6), (12,6), (11,6), (10,6), (9,6)] +   // 38-43
    [(8,5), (8,4), (8,3), (8,2), (8,1), (8,0)] +        // 44-49
    [(7,0)] +                                           // 50
    [(6,0)]                                             // 51

  /** Grid cells of a colour's home row; entry k is home-row step k + 1. */
  function HomeRowCells(c: Color): seq<Cell>
  {
    match c
    case Red => [(7,1), (7,2), (7,3), (7,4), (7,5)]
    case Green => [(1,7), (2,7), (3,7), (4,7), (5,7)]
    case Yellow => [(7,13), (7,12), (7,11), (7,10), (7,9)]
    case Blue => [(13,7), (12,7), (11,7), (10,7), (9,7)]
  }

  function HomeTriangleCell(c: Color): Cell
  {
    match c
    case Red => (7,6)
    case Green => (6,7)
    case Yellow => (7,8)
    case Blue => (8,7)
  }

  /** Grid cells of the four yard places of a colour's base. */
  function HomeBaseCells(c: Color): seq<Cell>
  {
    match c
    case Red => [(1,1), (1,4), (4,1), (4,4)]
    case Green => [(1,10), (1,13), (4,10), (4,13)]
    case Yellow => [(10,10), (10,13), (13,10), (13,13)]
    case Blue => [(10,1), (10,4), (13,1), (13,4)]
  }

  /** The track slot a pawn of colour c lands on when it leaves its base. */
  function StartSpot(c: Color): nat
  {
    match c
    case Red => 0
    case Green => 13
    case Yellow => 26
    case Blue => 39
  }

  /** The last track slot of colour c before its home row branches off. */
  function HomeEntryPoint(c: Color): nat
  {
    match c
    case Red => 51
    case Green => 12
    case Yellow => 25
    case Blue => 38
  }

  /** Track slots on which no pawn can be captured. */
  const RefinedSafeSpots: seq<nat> := [
    StartSpot(Red), StartSpot(Green), StartSpot(Yellow), StartSpot(Blue),
    8, 21, 34, 47
  ]

  predicate OnBoard(cell: Cell)
  {
    0 <= cell.0 < BoardSize && 0 <= cell.1 < BoardSize
  }

  /**
   * The track slot drawn at a grid cell, read off the board's geometry: the
   * track runs around the central cross in twelve straight pieces of six
   * cells (or one turning cell), so the slot is an affine function of the
   * row or column on each piece. This is an independent description of the
   * track, against which TrackCoords is checked.
   */
  function TrackSlotAt(cell: Cell): (r: Option<nat>)
    ensures r.Some? ==> r.value < TrackLength
  {
    var (row, col) := cell;
    if row == 6 && 1 <= col <= 5 then Some(col - 1)
    else if col == 6 && 0 <= row <= 5 then Some(10 - row)
    else if row == 0 && col == 7 then Some(11)
    else if col == 8 && 0 <= row <= 5 then Some(12 + row)
    else if row == 6 && 9 <= col <= 14 then Some(col + 9)
    else if row == 7 && col == 14 then Some(24)
    else if row == 8 && 9 <= col <= 14 then Some(39 - col)
    else if col == 8 && 9 <= row <= 14 then Some(row + 22)
    else if row == 14 && col == 7 then Some(37)
    else if col == 6 && 9 <= row <= 14 then Some(52 - row)
    else if row == 8 && 0 <= col <= 5 then Some(49 - col)
    else if row == 7 && col == 0 then Some(50)
    else if row == 6 && col == 0 then Some(51)
    else None
  }

  /** Turn order is RED, GREEN, YELLOW, BLUE, and there are exactly four players. */
  lemma TurnOrder()
    ensures |Players| == 4
    ensures Players[0].color == Red && Players[1].color == Green
    ensures Players[2].color == Yellow && Players[3].color == Blue
  {
  }

  /** No two players share a colour. */
  lemma PlayerColorsDistinct()
    ensures forall i, j :: 0 <= i < j < |Players| ==> Players[i].color != Players[j].color
  {
    assert Players[0].color == Red && Players[1].color == Green;
    assert Players[2].color == Yellow && Players[3].color == Blue;
  }

  /** The geometric description recovers the slot of every track cell, which lies on the board. */
  lemma TrackSlotAtTrackCoords(i: int)
    requires 0 <= i < |TrackCoords|
    ensures OnBoard(TrackCoords[i])
    ensures TrackSlotAt(TrackCoords[i]) == Some(i)
  {
    if i < 13 {
      TrackQuarterAgrees(0, i);
    } else if i < 26 {
      TrackQuarterAgrees(1, i);
    } else if i < 39 {
      TrackQuarterAgrees(2, i);
    } else {
      TrackQuarterAgrees(3, i);
    }
  }

  /** TrackSlotAtTrackCoords for the slots of one quarter of the track, one case per slot. */
  lemma TrackQuarterAgrees(q: int, i: int)
    requires 0 <= q < 4 && 13 * q <= i < 13 * q + 13
    ensures OnBoard(TrackCoords[i])
    ensures TrackSlotAt(TrackCoords[i]) == Some(i)
  {
    if q == 0 {
      assert i == 0 || i == 1 || i == 2 || i == 3 || i == 4 || i == 5 || i == 6 || i == 7 ||
        i == 8 || i == 9 || i == 10 || i == 11 || i == 12;
    } else if q == 1 {
      assert i == 13 || i == 14 || i == 15 || i == 16 || i == 17 || i == 18 || i == 19 || i == 20 ||
        i == 21 || i == 22 || i == 23 || i == 24 || i == 25;
    } else if q == 2 {
      assert i == 26 || i == 27 || i == 28 || i == 29 || i == 30 || i == 31 || i == 32 || i == 33 ||
        i == 34 || i == 35 || i == 36 || i == 37 || i == 38;
    } else {
      assert i == 39 || i == 40 || i == 41 || i == 42 || i == 43 || i == 44 || i == 45 || i == 46 ||
        i == 47 || i == 48 || i == 49 || i == 50 || i == 51;
    }
  }

  /** TRACK_COORDS has one cell per slot, all on the 15 x 15 board. */
  lemma TrackCoordsOnBoard()
    ensures |TrackCoords| == TrackLength
    ensures forall i :: 0 <= i < |TrackCoords| ==> OnBoard(TrackCoords[i])
  {
    forall i | 0 <= i < |TrackCoords|
      ensures OnBoard(TrackCoords[i])
    {
      TrackSlotAtTrackCoords(i);
    }
  }

  /** No two track slots are drawn on the same cell. */
  lemma TrackCoordsDistinct()
    ensures forall i, j :: 0 <= i < j < |TrackCoords| ==> TrackCoords[i] != TrackCoords[j]
  {
    forall i, j | 0 <= i < j < |TrackCoords|
      ensures TrackCoords[i] != TrackCoords[j]
    {
      TrackSlotAtTrackCoords(i);
      TrackSlotAtTrackCoords(j);
    }
  }

  /** Each colour starts on the slot just after its own home entry. */
  lemma StartFollowsHomeEntry(c: Color)
    ensures StartSpot(c) == (HomeEntryPoint(c) + 1) % TrackLength
  {
  }

  /** The start spots lie 13 slots apart in turn order, starting at slot 0. */
  lemma StartSpotsEvenlySpaced(i: int)
    requires 0 <= i < |Players|
    ensures StartSpot(Players[i].color) == i * (TrackLength / |Players|)
    ensures StartSpot(Players[i].color) < TrackLength
  {
  }

  /**
   * The safe spots are exactly the track slots that are a start spot or eight
   * slots past one; there are eight of them.
   */
  lemma SafeSpotsCharacterised(t: int)
    ensures |RefinedSafeSpots| == 8
    ensures t in RefinedSafeSpots <==> 0 <= t < TrackLength && (t % 13 == 0 || t % 13 == 8)
  {
    if 0 <= t < TrackLength && (t % 13 == 0 || t % 13 == 8) {
      assert t == 0 || t == 13 || t == 26 || t == 39 || t == 8 || t == 21 || t == 34 || t == 47;
    }
  }

  /** Every start spot, and the slot eight past it, is safe. */
  lemma StartSpotsSafe(c: Color)
    ensures StartSpot(c) in RefinedSafeSpots
    ensures StartSpot(c) + 8 in RefinedSafeSpots
  {
  }

  /**
   * Each colour has five home-row cells and four base cells, all on the
   * board and none of them a track cell.
   */
  lemma HomeCellsOffTrack(c: Color)
    ensures |HomeRowCells(c)| == 5 && |HomeBaseCells(c)| == 4
    ensures forall k :: 0 <= k < |HomeRowCells(c)| ==>
              OnBoard(HomeRowCells(c)[k]) && TrackSlotAt(HomeRowCells(c)[k]) == None
    ensures forall k :: 0 <= k < |HomeBaseCells(c)| ==>
              OnBoard(HomeBaseCells(c)[k]) && TrackSlotAt(HomeBaseCells(c)[k]) == None
    ensures OnBoard(HomeTriangleCell(c)) && TrackSlotAt(HomeTriangleCell(c)) == None
  {
  }

  /** Hence no home-row, base or triangle cell coincides with a cell of TRACK_COORDS. */
  lemma HomeCellsNotTrackCoords(c: Color, i: int)
    requires 0 <= i < |TrackCoords|
    ensures TrackCoords[i] !in HomeRowCells(c)
    ensures TrackCoords[i] !in HomeBaseCells(c)
    ensures TrackCoords[i] != HomeTriangleCell(c)
  {
    TrackSlotAtTrackCoords(i);
    HomeCellsOffTrack(c);
  }
}

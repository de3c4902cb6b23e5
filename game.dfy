/**
 * The turn controller: the state of one game session (the pawn list, whose
 * turn it is, the last roll, whether it has been used, the game state and the
 * winner) and the three transitions the players drive: start, roll and select.
 */
module Game {
  import opened Wrappers
  import opened Constants
  import opened Moves

  datatype GameState = NotStarted | InProgress | GameOver

  const PawnsPerPlayer: int := 4

  const PawnCount: int := |Players| * PawnsPerPlayer

  /**
   * The pawn list as the game builds it: pawn k has id k and belongs to
   * player k / 4, and every pawn is somewhere the rules can put it.
   */
  ghost predicate WellFormed(ps: seq<Pawn>)
  {
    |ps| == PawnCount &&
    forall k :: 0 <= k < |ps| ==>
      ps[k].id == k && ps[k].color == Players[k / PawnsPerPlayer].color && ValidPosition(ps[k].position)
  }

  // ---------------------------------------------------------------------------
  // Operations on the pawn list
  // ---------------------------------------------------------------------------

  /** The first pawn with the given id, if there is one. */
  function FindPawn(ps: seq<Pawn>, id: int): (r: Option<Pawn>)
    ensures r.Some? ==> r.value.id == id && exists k :: 0 <= k < |ps| && ps[k] == r.value
    ensures r.None? ==> forall k :: 0 <= k < |ps| ==> ps[k].id != id
  {
    if ps == [] then None
    else if ps[0].id == id then Some(ps[0])
    else
      var r := FindPawn(ps[1..], id);
      assert r.Some? ==> exists k :: 0 <= k < |ps| && ps[k] == r.value by {
        if r.Some? {
          var k :| 0 <= k < |ps[1..]| && ps[1..][k] == r.value;
          assert ps[k + 1] == r.value;
        }
      }
      r
  }

  /**
   * The list with every pawn of the given id moved to pos: only positions
   * change, those pawns are at pos, and every other pawn is untouched.
   */
  function WithPosition(ps: seq<Pawn>, id: int, pos: Position): (r: seq<Pawn>)
    ensures |r| == |ps|
    ensures forall k :: 0 <= k < |ps| ==> r[k] == ps[k].(position := r[k].position)
    ensures forall k :: 0 <= k < |ps| && ps[k].id == id ==> r[k].position == pos
    ensures forall k :: 0 <= k < |ps| && ps[k].id != id ==> r[k] == ps[k]
  {
    seq(|ps|, k requires 0 <= k < |ps| => if ps[k].id == id then ps[k].(position := pos) else ps[k])
  }

  /** The list with every movable flag cleared: no pawn is flagged, and nothing else changes. */
  function ClearMovable(ps: seq<Pawn>): (r: seq<Pawn>)
    ensures |r| == |ps|
    ensures forall k :: 0 <= k < |ps| ==> !r[k].isMovable && r[k] == ps[k].(isMovable := r[k].isMovable)
  {
    seq(|ps|, k requires 0 <= k < |ps| => ps[k].(isMovable := false))
  }

  /** Whether a pawn of another colour than `color` stands on track slot `slot`. */
  predicate OpposesAt(p: Pawn, slot: nat, color: Color)
  {
    p.position == Track(slot) && p.color != color
  }

  /** The pawns of other colours on a track slot, in list order. */
  function Opponents(ps: seq<Pawn>, slot: nat, color: Color): (r: seq<Pawn>)
    ensures |r| <= |ps|
    ensures forall p :: p in r <==> p in ps && OpposesAt(p, slot, color)
  {
    if ps == [] then []
    else
      var rest := Opponents(ps[1..], slot, color);
      assert forall p :: p in ps <==> p == ps[0] || p in ps[1..];
      if OpposesAt(ps[0], slot, color) then [ps[0]] + rest else rest
  }

  /** The pawns of the given colour that have a legal move for the roll, in list order. */
  function MovablePawns(ps: seq<Pawn>, color: Color, roll: int): (r: seq<Pawn>)
    requires IsRoll(roll)
    ensures |r| <= |ps|
    ensures forall p :: p in r <==> p in ps && p.color == color && CalculateNewPosition(p, roll).Some?
  {
    if ps == [] then []
    else
      var rest := MovablePawns(ps[1..], color, roll);
      assert forall p :: p in ps <==> p == ps[0] || p in ps[1..];
      if ps[0].color == color && CalculateNewPosition(ps[0], roll).Some? then [ps[0]] + rest else rest
  }

  predicate HasId(ms: seq<Pawn>, id: int)
  {
    exists j :: 0 <= j < |ms| && ms[j].id == id
  }

  /**
   * The list with the flag set on every pawn whose id occurs in `movable`:
   * a pawn is flagged afterwards when it was before or its id occurs there,
   * and nothing but flags changes.
   */
  function MarkMovable(ps: seq<Pawn>, movable: seq<Pawn>): (r: seq<Pawn>)
    ensures |r| == |ps|
    ensures forall k :: 0 <= k < |ps| ==>
              r[k] == ps[k].(isMovable := r[k].isMovable) &&
              r[k].isMovable == (ps[k].isMovable || HasId(movable, ps[k].id))
  {
    seq(|ps|, k requires 0 <= k < |ps| => if HasId(movable, ps[k].id) then ps[k].(isMovable := true) else ps[k])
  }

  /** How many pawns of the colour are finished. */
  function FinishedCount(ps: seq<Pawn>, color: Color): (n: nat)
    ensures n <= |ps|
    ensures n > 0 <==> exists k :: 0 <= k < |ps| && ps[k].color == color && ps[k].position == Finished
  {
    if ps == [] then 0
    else
      var rest := FinishedCount(ps[1..], color);
      assert rest > 0 <==> exists k :: 1 <= k < |ps| && ps[k].color == color && ps[k].position == Finished by {
        if rest > 0 {
          var k :| 0 <= k < |ps[1..]| && ps[1..][k].color == color && ps[1..][k].position == Finished;
          assert ps[k + 1] == ps[1..][k];
        }
        if exists k :: 1 <= k < |ps| && ps[k].color == color && ps[k].position == Finished {
          var k :| 1 <= k < |ps| && ps[k].color == color && ps[k].position == Finished;
          assert ps[1..][k - 1] == ps[k];
        }
      }
      (if ps[0].color == color && ps[0].position == Finished then 1 else 0) + rest
  }

  /** How many pawns of the colour the list holds. */
  function ColorCount(ps: seq<Pawn>, color: Color): (n: nat)
    ensures n <= |ps|
  {
    if ps == [] then 0
    else (if ps[0].color == color then 1 else 0) + ColorCount(ps[1..], color)
  }

  /**
   * A colour has at most as many finished pawns as pawns, and as many exactly
   * when every pawn of the colour is finished.
   */
  lemma {:induction false} FinishedCountAtMostColorCount(ps: seq<Pawn>, color: Color)
    ensures FinishedCount(ps, color) <= ColorCount(ps, color)
    ensures FinishedCount(ps, color) == ColorCount(ps, color) <==>
              forall k :: 0 <= k < |ps| && ps[k].color == color ==> ps[k].position == Finished
  {
    if ps != [] {
      FinishedCountAtMostColorCount(ps[1..], color);
      assert forall k :: 1 <= k < |ps| ==> ps[1..][k - 1] == ps[k];
    }
  }

  lemma {:induction false} ColorCountAppend(a: seq<Pawn>, b: seq<Pawn>, color: Color)
    ensures ColorCount(a + b, color) == ColorCount(a, color) + ColorCount(b, color)
  {
    if a != [] {
      assert (a + b)[1..] == a[1..] + b;
      ColorCountAppend(a[1..], b, color);
    } else {
      assert a + b == b;
    }
  }

  /** In a list of pawns of one colour d, colour d counts every pawn and any other colour none. */
  lemma {:induction false} ColorCountUniform(a: seq<Pawn>, d: Color, color: Color)
    requires forall k :: 0 <= k < |a| ==> a[k].color == d
    ensures ColorCount(a, color) == if d == color then |a| else 0
  {
    if a != [] {
      assert forall k :: 0 <= k < |a[1..]| ==> a[1..][k] == a[k + 1];
      ColorCountUniform(a[1..], d, color);
    }
  }

  /** Player i's pawns form the i-th block of four in a well-formed list. */
  lemma BlockColor(ps: seq<Pawn>, block: seq<Pawn>, i: int, color: Color)
    requires WellFormed(ps) && 0 <= i < |Players|
    requires block == ps[PawnsPerPlayer * i..PawnsPerPlayer * i + PawnsPerPlayer]
    ensures ColorCount(block, color) == if Players[i].color == color then PawnsPerPlayer else 0
  {
    forall k | 0 <= k < |block|
      ensures block[k].color == Players[i].color
    {
      assert block[k] == ps[PawnsPerPlayer * i + k];
      assert (PawnsPerPlayer * i + k) / PawnsPerPlayer == i;
    }
    ColorCountUniform(block, Players[i].color, color);
  }

  /** A well-formed list holds exactly four pawns of every colour. */
  lemma ColorCountWellFormed(ps: seq<Pawn>, color: Color)
    requires WellFormed(ps)
    ensures ColorCount(ps, color) == PawnsPerPlayer
  {
    var b0, b1, b2, b3 := ps[..4], ps[4..8], ps[8..12], ps[12..];
    assert ps == b0 + b1 + b2 + b3;
    ColorCountAppend(b0 + b1 + b2, b3, color);
    ColorCountAppend(b0 + b1, b2, color);
    ColorCountAppend(b0, b1, color);
    TurnOrder();
    BlockColor(ps, b0, 0, color);
    BlockColor(ps, b1, 1, color);
    BlockColor(ps, b2, 2, color);
    BlockColor(ps, b3, 3, color);
  }

  /**
   * The win test of the game: in a well-formed list a colour never has more
   * than four finished pawns, and has four exactly when all its pawns are
   * finished.
   */
  lemma WinMeansAllFinished(ps: seq<Pawn>, color: Color)
    requires WellFormed(ps)
    ensures FinishedCount(ps, color) <= PawnsPerPlayer
    ensures FinishedCount(ps, color) == PawnsPerPlayer <==>
              forall k :: 0 <= k < |ps| && ps[k].color == color ==> ps[k].position == Finished
  {
    ColorCountWellFormed(ps, color);
    FinishedCountAtMostColorCount(ps, color);
  }

  /** Whether some pawn of the colour has a legal move for the roll. */
  ghost predicate CanMove(ps: seq<Pawn>, color: Color, roll: int)
    requires IsRoll(roll)
  {
    exists k :: 0 <= k < |ps| && ps[k].color == color && CalculateNewPosition(ps[k], roll).Some?
  }

  datatype MoveResult = MoveResult(pawns: seq<Pawn>, captured: bool)

  /**
   * The pawn list after `mover` goes to `dest`: if `dest` is a track slot that
   * is not safe and exactly one pawn of another colour stands there, that pawn
   * is sent back to its base and the move counts as a capture.
   */
  function Move(ps: seq<Pawn>, mover: Pawn, dest: Position): (r: MoveResult)
    ensures |r.pawns| == |ps|
    ensures r.captured ==> dest.Track? && dest.slot !in RefinedSafeSpots
    ensures !r.captured ==> r.pawns == WithPosition(ps, mover.id, dest)
  {
    var updatedPawns := WithPosition(ps, mover.id, dest);
    if dest.Track? && dest.slot !in RefinedSafeSpots then
      var pawnsAtDestination := Opponents(updatedPawns, dest.slot, mover.color);
      if |pawnsAtDestination| == 1 then
        MoveResult(WithPosition(updatedPawns, pawnsAtDestination[0].id, Base), true)
      else
        MoveResult(updatedPawns, false)
    else
      MoveResult(updatedPawns, false)
  }

  // ---------------------------------------------------------------------------
  // Properties of the pawn-list operations
  // ---------------------------------------------------------------------------

  /** In a well-formed list, looking a pawn up by id finds the pawn at that index. */
  lemma FindPawnWellFormed(ps: seq<Pawn>, id: int)
    requires WellFormed(ps)
    ensures FindPawn(ps, id) == if 0 <= id < |ps| then Some(ps[id]) else None
  {
    var r := FindPawn(ps, id);
    if r.Some? {
      var k :| 0 <= k < |ps| && ps[k] == r.value;
      assert k == id;
    }
  }

  /** When exactly one pawn in the list is an opponent on the slot, it is the only one found. */
  lemma {:induction false} OpponentsSingle(ps: seq<Pawn>, slot: nat, color: Color, k: int)
    requires 0 <= k < |ps| && OpposesAt(ps[k], slot, color)
    requires forall j :: 0 <= j < |ps| && j != k ==> !OpposesAt(ps[j], slot, color)
    ensures Opponents(ps, slot, color) == [ps[k]]
  {
    forall j | 0 <= j < |ps[1..]| && j != k - 1
      ensures !OpposesAt(ps[1..][j], slot, color)
    {
      assert ps[1..][j] == ps[j + 1];
    }
    if k == 0 {
      OpponentsNone(ps[1..], slot, color);
    } else {
      OpponentsSingle(ps[1..], slot, color, k - 1);
    }
  }

  /** With no opponent on the slot, none is found. */
  lemma {:induction false} OpponentsNone(ps: seq<Pawn>, slot: nat, color: Color)
    requires forall j :: 0 <= j < |ps| ==> !OpposesAt(ps[j], slot, color)
    ensures Opponents(ps, slot, color) == []
  {
    if ps != [] {
      assert forall j :: 0 <= j < |ps[1..]| ==> ps[1..][j] == ps[j + 1];
      OpponentsNone(ps[1..], slot, color);
    }
  }

  /** Clearing the flags keeps every finished count. */
  lemma {:induction false} FinishedCountClearMovable(ps: seq<Pawn>, color: Color)
    ensures FinishedCount(ClearMovable(ps), color) == FinishedCount(ps, color)
  {
    if ps != [] {
      assert ClearMovable(ps)[1..] == ClearMovable(ps[1..]);
      FinishedCountClearMovable(ps[1..], color);
    }
  }

  /** The resolver looks only at a pawn's colour and position, never at its flag. */
  lemma ResolverIgnoresFlag(p: Pawn, flag: bool, roll: int)
    requires IsRoll(roll)
    ensures CalculateNewPosition(p.(isMovable := flag), roll) == CalculateNewPosition(p, roll)
  {
  }

  lemma ClearMovableWellFormed(ps: seq<Pawn>)
    requires WellFormed(ps)
    ensures WellFormed(ClearMovable(ps))
    ensures forall k :: 0 <= k < |ps| ==> !ClearMovable(ps)[k].isMovable
  {
  }

  /** An opposing pawn that is the only one on its slot. */
  ghost predicate SoleOpponentAt(ps: seq<Pawn>, slot: nat, color: Color, k: int)
  {
    0 <= k < |ps| && OpposesAt(ps[k], slot, color) &&
    forall j :: 0 <= j < |ps| && OpposesAt(ps[j], slot, color) ==> j == k
  }

  /** Every pawn's id is its index in the list. */
  ghost predicate IdsAreIndices(ps: seq<Pawn>)
  {
    forall k :: 0 <= k < |ps| ==> ps[k].id == k
  }

  /** When ids are indices, moving by id changes exactly the pawn at that index. */
  lemma WithPositionAt(ps: seq<Pawn>, i: int, pos: Position)
    requires IdsAreIndices(ps) && 0 <= i < |ps|
    ensures var r := WithPosition(ps, i, pos);
      |r| == |ps| && IdsAreIndices(r) && r[i] == ps[i].(position := pos) &&
      forall k :: 0 <= k < |ps| && k != i ==> r[k] == ps[k]
  {
  }

  /** A capturing move sends the one opponent on the destination back to base. */
  lemma CaptureVictim(ps: seq<Pawn>, mover: Pawn, dest: Position) returns (j: int)
    requires WellFormed(ps) && 0 <= mover.id < |ps| && ps[mover.id] == mover
    requires Move(ps, mover, dest).captured
    ensures dest.Track? && dest.slot !in RefinedSafeSpots
    ensures SoleOpponentAt(ps, dest.slot, mover.color, j) && j != mover.id
    ensures Move(ps, mover, dest).pawns == WithPosition(WithPosition(ps, mover.id, dest), j, Base)
  {
    var moved := WithPosition(ps, mover.id, dest);
    WithPositionAt(ps, mover.id, dest);
    var victims := Opponents(moved, dest.slot, mover.color);
    assert |victims| == 1 && victims == [victims[0]];
    assert victims[0] in moved;
    j :| 0 <= j < |moved| && moved[j] == victims[0];
    forall k | 0 <= k < |ps| && OpposesAt(ps[k], dest.slot, mover.color)
      ensures k == j
    {
      assert k != mover.id && moved[k] == ps[k];
      assert moved[k] in victims;
      assert moved[k] == victims[0] == moved[j];
      assert moved[k].id == k && moved[j].id == j;
    }
  }

  /**
   * A move changes the mover's position to its destination and changes at
   * most one other pawn: a pawn of another colour that stood on the
   * destination, which goes back to its base. Pawns of the mover's colour are
   * never captured, and ids, colours and flags are untouched.
   */
  lemma MoveFrame(ps: seq<Pawn>, mover: Pawn, dest: Position)
    requires WellFormed(ps) && 0 <= mover.id < |ps| && ps[mover.id] == mover
    ensures var o := Move(ps, mover, dest);
      |o.pawns| == |ps| &&
      o.pawns[mover.id] == mover.(position := dest) &&
      (forall k :: 0 <= k < |ps| ==>
         o.pawns[k] == ps[k].(position := o.pawns[k].position)) &&
      (forall k :: 0 <= k < |ps| && k != mover.id && o.pawns[k] != ps[k] ==>
         o.captured && ps[k].color != mover.color && ps[k].position == dest &&
         o.pawns[k] == ps[k].(position := Base)) &&
      (forall j, k ::
         0 <= j < |ps| && 0 <= k < |ps| && j != mover.id && k != mover.id &&
         o.pawns[j] != ps[j] && o.pawns[k] != ps[k]
         ==> j == k)
  {
    var moved := WithPosition(ps, mover.id, dest);
    WithPositionAt(ps, mover.id, dest);
    if Move(ps, mover, dest).captured {
      var j := CaptureVictim(ps, mover, dest);
      WithPositionAt(moved, j, Base);
    }
  }

  /**
   * A move captures exactly when its destination is a track slot that is not
   * safe and exactly one pawn of another colour stands on it.
   */
  lemma CaptureRule(ps: seq<Pawn>, mover: Pawn, dest: Position)
    requires WellFormed(ps) && 0 <= mover.id < |ps| && ps[mover.id] == mover
    ensures Move(ps, mover, dest).captured <==>
              dest.Track? && dest.slot !in RefinedSafeSpots &&
              exists k :: SoleOpponentAt(ps, dest.slot, mover.color, k)
  {
    if Move(ps, mover, dest).captured {
      var j := CaptureVictim(ps, mover, dest);
    } else if dest.Track? && dest.slot !in RefinedSafeSpots {
      if k :| SoleOpponentAt(ps, dest.slot, mover.color, k) {
        var moved := WithPosition(ps, mover.id, dest);
        WithPositionAt(ps, mover.id, dest);
        OpponentsSingle(moved, dest.slot, mover.color, k);
      }
    }
  }

  /** A move to a valid position keeps the pawn list well formed. */
  lemma MovePreservesWellFormed(ps: seq<Pawn>, mover: Pawn, dest: Position)
    requires WellFormed(ps) && 0 <= mover.id < |ps| && ps[mover.id] == mover && ValidPosition(dest)
    ensures WellFormed(Move(ps, mover, dest).pawns)
  {
    MoveFrame(ps, mover, dest);
  }

  /** No pawn in the list is flagged movable. */
  ghost predicate NoFlags(ps: seq<Pawn>)
  {
    forall k :: 0 <= k < |ps| ==> !ps[k].isMovable
  }

  /** Clearing the flags of a list that carries none leaves it as it is. */
  lemma ClearMovableNoFlags(ps: seq<Pawn>)
    requires NoFlags(ps)
    ensures ClearMovable(ps) == ps
  {
    assert forall k :: 0 <= k < |ps| ==> ClearMovable(ps)[k] == ps[k];
  }

  /**
   * A colour has no more finished pawns in b than in a when every finished
   * pawn of the colour in b is, at the same index, a finished pawn of it in a.
   */
  lemma {:induction false} FinishedCountMono(a: seq<Pawn>, b: seq<Pawn>, color: Color)
    requires |a| == |b|
    requires forall k :: 0 <= k < |b| && b[k].color == color && b[k].position == Finished ==>
               a[k].color == color && a[k].position == Finished
    ensures FinishedCount(b, color) <= FinishedCount(a, color)
  {
    if b != [] {
      assert forall k :: 0 <= k < |b[1..]| ==> b[1..][k] == b[k + 1] && a[1..][k] == a[k + 1];
      FinishedCountMono(a[1..], b[1..], color);
    }
  }

  /** A move never finishes a pawn of another colour than the mover's. */
  lemma MoveFinishesOnlyMover(ps: seq<Pawn>, mover: Pawn, dest: Position, color: Color)
    requires WellFormed(ps) && 0 <= mover.id < |ps| && ps[mover.id] == mover
    requires color != mover.color
    ensures FinishedCount(Move(ps, mover, dest).pawns, color) <= FinishedCount(ps, color)
  {
    MoveFrame(ps, mover, dest);
    FinishedCountMono(ps, Move(ps, mover, dest).pawns, color);
  }

  /**
   * After a legal move and the clearing of the flags, the list is well formed
   * and carries no flags; every colour has as many finished pawns as the move
   * left it, at most four, and only the mover's colour can have gained one.
   */
  lemma AfterMove(ps: seq<Pawn>, mover: Pawn, dest: Position)
    requires WellFormed(ps) && 0 <= mover.id < |ps| && ps[mover.id] == mover && ValidPosition(dest)
    ensures var moved := Move(ps, mover, dest).pawns;
      WellFormed(ClearMovable(moved)) && NoFlags(ClearMovable(moved)) &&
      forall c :: FinishedCount(ClearMovable(moved), c) == FinishedCount(moved, c) <= PawnsPerPlayer &&
                  (c != mover.color ==> FinishedCount(moved, c) <= FinishedCount(ps, c))
  {
    var moved := Move(ps, mover, dest).pawns;
    MovePreservesWellFormed(ps, mover, dest);
    ClearMovableWellFormed(moved);
    forall c
      ensures FinishedCount(ClearMovable(moved), c) == FinishedCount(moved, c) <= PawnsPerPlayer
      ensures c != mover.color ==> FinishedCount(moved, c) <= FinishedCount(ps, c)
    {
      FinishedCountClearMovable(moved, c);
      WinMeansAllFinished(moved, c);
      if c != mover.color {
        MoveFinishesOnlyMover(ps, mover, dest, c);
      }
    }
  }

  /** The filter finds some pawn exactly when the colour has a legal move. */
  lemma MovablePawnsNonEmpty(ps: seq<Pawn>, color: Color, roll: int)
    requires IsRoll(roll)
    ensures |MovablePawns(ps, color, roll)| > 0 <==> CanMove(ps, color, roll)
  {
    var m := MovablePawns(ps, color, roll);
    if |m| > 0 {
      assert m[0] in ps;
    }
    if CanMove(ps, color, roll) {
      var k :| 0 <= k < |ps| && ps[k].color == color && CalculateNewPosition(ps[k], roll).Some?;
      assert ps[k] in m;
    }
  }

  /**
   * In a well-formed list with no flags set, marking the movable pawns sets
   * the flag on exactly the pawns of the colour that have a legal move.
   */
  lemma MarkMovableExact(ps: seq<Pawn>, color: Color, roll: int)
    requires IsRoll(roll) && WellFormed(ps)
    requires forall k :: 0 <= k < |ps| ==> !ps[k].isMovable
    ensures var r := MarkMovable(ps, MovablePawns(ps, color, roll));
      WellFormed(r) && ClearMovable(r) == ClearMovable(ps) &&
      forall k :: 0 <= k < |r| ==>
        r[k].isMovable == (ps[k].color == color && CalculateNewPosition(ps[k], roll).Some?) &&
        CalculateNewPosition(r[k], roll) == CalculateNewPosition(ps[k], roll)
  {
    var m := MovablePawns(ps, color, roll);
    var r := MarkMovable(ps, m);
    forall k | 0 <= k < |ps|
      ensures r[k].isMovable == (ps[k].color == color && CalculateNewPosition(ps[k], roll).Some?)
      ensures CalculateNewPosition(r[k], roll) == CalculateNewPosition(ps[k], roll)
    {
      ResolverIgnoresFlag(ps[k], r[k].isMovable, roll);
      if HasId(m, ps[k].id) {
        var j :| 0 <= j < |m| && m[j].id == ps[k].id;
        assert m[j] in ps;
        var k' :| 0 <= k' < |ps| && ps[k'] == m[j];
        assert k' == k;
      }
    }
  }

  // ---------------------------------------------------------------------------
  // The session
  // ---------------------------------------------------------------------------

  /** The initial pawn list: four pawns per player in turn order, all in base. */
  method NewPawns() returns (initialPawns: seq<Pawn>)
    ensures |initialPawns| == PawnCount
    ensures forall k :: 0 <= k < |initialPawns| ==>
              initialPawns[k] == Pawn(k, Players[k / PawnsPerPlayer].color, Base, false)
  {
    initialPawns := [];
    for playerIndex := 0 to |Players|
      invariant |initialPawns| == playerIndex * PawnsPerPlayer
      invariant forall k :: 0 <= k < |initialPawns| ==>
                  initialPawns[k] == Pawn(k, Players[k / PawnsPerPlayer].color, Base, false)
    {
      for i := 0 to PawnsPerPlayer
        invariant |initialPawns| == playerIndex * PawnsPerPlayer + i
        invariant forall k :: 0 <= k < |initialPawns| ==>
                    initialPawns[k] == Pawn(k, Players[k / PawnsPerPlayer].color, Base, false)
      {
        assert (playerIndex * PawnsPerPlayer + i) / PawnsPerPlayer == playerIndex;
        initialPawns := initialPawns + [Pawn(playerIndex * PawnsPerPlayer + i, Players[playerIndex].color, Base, false)];
      }
    }
  }

  /** The index of the player after player i in turn order. */
  function NextPlayer(i: nat): (r: nat)
    ensures r < |Players|
  {
    (i + 1) % |Players|
  }

  /**
   * Turns rotate RED, GREEN, YELLOW, BLUE and back to RED: each player is
   * followed by the next one in the player list, the last by the first.
   */
  lemma TurnRotation(i: nat)
    requires i < |Players|
    ensures Players[NextPlayer(i)].color ==
              match Players[i].color
              case Red => Green
              case Green => Yellow
              case Yellow => Blue
              case Blue => Red
  {
  }

  /** No colour has all four of its pawns finished: nobody has won yet. */
  ghost predicate NoColorFinished(ps: seq<Pawn>)
  {
    forall c :: FinishedCount(ps, c) < PawnsPerPlayer
  }

  /** Lists that differ only in their flags have the same finished counts. */
  lemma SameFinishedCounts(a: seq<Pawn>, b: seq<Pawn>)
    requires ClearMovable(a) == ClearMovable(b)
    ensures forall c :: FinishedCount(a, c) == FinishedCount(b, c)
  {
    forall c
      ensures FinishedCount(a, c) == FinishedCount(b, c)
    {
      FinishedCountClearMovable(a, c);
      FinishedCountClearMovable(b, c);
    }
  }

  class Session {
    var pawns: seq<Pawn>
    var currentPlayerIndex: nat
    var diceValue: int
    var hasRolled: bool
    var gameState: GameState
    var winner: Option<Color>

    function CurrentColor(): Color
      reads this
      requires currentPlayerIndex < |Players|
    {
      Players[currentPlayerIndex].color
    }

    /**
     * The session invariant. Flags are set only while the current player,
     * having rolled, has to pick one of exactly those pawns that can move.
     */
    ghost predicate Valid()
      reads this
    {
      currentPlayerIndex < |Players| &&
      IsRoll(diceValue) &&
      (gameState == NotStarted ==> pawns == [] && !hasRolled) &&
      (gameState != NotStarted ==> WellFormed(pawns)) &&
      (winner.Some? <==> gameState == GameOver) &&
      (gameState == GameOver ==> FinishedCount(pawns, winner.value) == PawnsPerPlayer) &&
      (gameState == InProgress ==> NoColorFinished(pawns)) &&
      (forall k :: 0 <= k < |pawns| && pawns[k].isMovable ==>
         gameState == InProgress && hasRolled && pawns[k].color == CurrentColor() &&
         CalculateNewPosition(pawns[k], diceValue).Some?) &&
      (gameState == InProgress && hasRolled ==>
         forall k ::
           0 <= k < |pawns| && pawns[k].color == CurrentColor() && CalculateNewPosition(pawns[k], diceValue).Some?
           ==> pawns[k].isMovable)
    }

    /** Whether selecting the id is accepted: the pawn exists and is flagged movable. */
    ghost predicate Selectable(id: int)
      reads this
    {
      FindPawn(pawns, id).Some? && FindPawn(pawns, id).value.isMovable
    }

    constructor ()
      ensures Valid()
      ensures gameState == NotStarted && pawns == [] && currentPlayerIndex == 0
      ensures diceValue == 6 && !hasRolled && winner == None
    {
      gameState := NotStarted;
      pawns := [];
      currentPlayerIndex := 0;
      diceValue := 6;
      hasRolled := false;
      winner := None;
    }

    /** Starts (or restarts) a game: every pawn in base, player 0 to roll. */
    method Start()
      modifies this
      ensures Valid()
      ensures |pawns| == PawnCount
      ensures forall k :: 0 <= k < |pawns| ==> pawns[k] == Pawn(k, Players[k / PawnsPerPlayer].color, Base, false)
      ensures currentPlayerIndex == 0 && diceValue == 1 && gameState == InProgress
      ensures winner == None && !hasRolled
    {
      var initialPawns := NewPawns();
      pawns := initialPawns;
      currentPlayerIndex := 0;
      diceValue := 1;
      gameState := InProgress;
      winner := None;
      hasRolled := false;
      forall c
        ensures FinishedCount(pawns, c) < PawnsPerPlayer
      {
        assert FinishedCount(pawns, c) == 0;
      }
    }

    /** Ends the turn: the same player rolls again on an extra turn, otherwise the next one. */
    method NextTurn(wasExtraTurn: bool)
      requires currentPlayerIndex < |Players|
      modifies this
      ensures currentPlayerIndex ==
                if wasExtraTurn then old(currentPlayerIndex) else NextPlayer(old(currentPlayerIndex))
      ensures pawns == ClearMovable(old(pawns)) && !hasRolled
      ensures diceValue == old(diceValue) && gameState == old(gameState) && winner == old(winner)
    {
      if wasExtraTurn {
        hasRolled := false;
        pawns := ClearMovable(pawns);
      } else {
        var nextIndex := (currentPlayerIndex + 1) % |Players|;
        currentPlayerIndex := nextIndex;
        hasRolled := false;
        pawns := ClearMovable(pawns);
      }
    }

    /** Ends the game when the current colour has all its pawns finished. */
    method CheckForWinner(currentPawns: seq<Pawn>) returns (won: bool)
      requires currentPlayerIndex < |Players|
      modifies this
      ensures won == (FinishedCount(currentPawns, old(CurrentColor())) == PawnsPerPlayer)
      ensures won ==> gameState == GameOver && winner == Some(old(CurrentColor()))
      ensures !won ==> gameState == old(gameState) && winner == old(winner)
      ensures pawns == old(pawns) && currentPlayerIndex == old(currentPlayerIndex)
      ensures diceValue == old(diceValue) && hasRolled == old(hasRolled)
    {
      var finishedCount := FinishedCount(currentPawns, CurrentColor());
      won := finishedCount == PawnsPerPlayer;
      if won {
        gameState := GameOver;
        winner := Some(CurrentColor());
      }
    }

    /**
     * Rolls the dice. Ignored unless a game is in progress and the current
     * player has not rolled yet. Otherwise the current player's pawns that the
     * roll can move are flagged; when there are none the turn ends at once,
     * and the player keeps it only on a 6.
     */
    method Roll(roll: int)
      requires Valid() && IsRoll(roll)
      modifies this
      ensures Valid()
      ensures old(hasRolled) || old(gameState) != InProgress ==> unchanged(this)
      ensures !old(hasRolled) && old(gameState) == InProgress ==>
        diceValue == roll && gameState == InProgress && winner == old(winner) &&
        ClearMovable(pawns) == ClearMovable(old(pawns)) &&
        (forall k :: 0 <= k < |pawns| ==>
           pawns[k].isMovable == (old(pawns)[k].color == old(CurrentColor()) &&
                                  CalculateNewPosition(old(pawns)[k], roll).Some?)) &&
        (CanMove(old(pawns), old(CurrentColor()), roll) ==>
           hasRolled && currentPlayerIndex == old(currentPlayerIndex)) &&
        (!CanMove(old(pawns), old(CurrentColor()), roll) ==>
           !hasRolled &&
           currentPlayerIndex == if roll == 6 then old(currentPlayerIndex)
                                 else NextPlayer(old(currentPlayerIndex)))
    {
      if hasRolled || gameState != InProgress {
        return;
      }
      diceValue := roll;
      hasRolled := true;
      FindMovablePawns(roll);
    }

    /**
     * The step after a roll: flags the current player's pawns that the roll
     * can move, or, when there are none, ends the turn, which the player keeps
     * only on a 6.
     */
    method FindMovablePawns(roll: int)
      requires IsRoll(roll) && diceValue == roll && hasRolled
      requires currentPlayerIndex < |Players| && gameState == InProgress && winner == None
      requires WellFormed(pawns) && NoFlags(pawns) && NoColorFinished(pawns)
      modifies this
      ensures Valid()
      ensures diceValue == roll && gameState == InProgress && winner == None
      ensures ClearMovable(pawns) == ClearMovable(old(pawns))
      ensures forall k :: 0 <= k < |pawns| ==>
                pawns[k].isMovable == (old(pawns)[k].color == old(CurrentColor()) &&
                                       CalculateNewPosition(old(pawns)[k], roll).Some?)
      ensures CanMove(old(pawns), old(CurrentColor()), roll) ==>
                hasRolled && currentPlayerIndex == old(currentPlayerIndex)
      ensures !CanMove(old(pawns), old(CurrentColor()), roll) ==>
                !hasRolled &&
                currentPlayerIndex == if roll == 6 then old(currentPlayerIndex) else NextPlayer(old(currentPlayerIndex))
    {
      var currentPlayerColor := CurrentColor();
      var movablePawns := MovablePawns(pawns, currentPlayerColor, roll);
      MovablePawnsNonEmpty(pawns, currentPlayerColor, roll);
      if |movablePawns| > 0 {
        MarkMovableExact(pawns, currentPlayerColor, roll);
        pawns := MarkMovable(pawns, movablePawns);
        SameFinishedCounts(pawns, old(pawns));
      } else {
        NextTurn(roll == 6);
        ClearMovableWellFormed(old(pawns));
        SameFinishedCounts(pawns, old(pawns));
      }
    }

    /**
     * Moves the selected pawn by the current roll. Ignored unless the pawn
     * exists and is flagged movable. Otherwise the move is applied (with any
     * capture), every flag is cleared, and either the current colour has won,
     * or the turn ends: the player keeps it after a 6 or a capture.
     */
    method Select(id: int)
      requires Valid()
      modifies this
      ensures Valid()
      ensures !old(Selectable(id)) ==> unchanged(this)
      ensures old(gameState) != InProgress ==> unchanged(this)
      ensures old(Selectable(id)) ==>
        var mover := FindPawn(old(pawns), id).value;
        var o := Move(old(pawns), mover, CalculateNewPosition(mover, old(diceValue)).value);
        pawns == ClearMovable(o.pawns) && diceValue == old(diceValue) &&
        if FinishedCount(o.pawns, old(CurrentColor())) == PawnsPerPlayer then
          gameState == GameOver && winner == Some(old(CurrentColor())) &&
          currentPlayerIndex == old(currentPlayerIndex) && hasRolled
        else
          gameState == InProgress && winner == None && !hasRolled &&
          currentPlayerIndex == if old(diceValue) == 6 || o.captured then old(currentPlayerIndex)
                                else NextPlayer(old(currentPlayerIndex))
    {
      var pawnToMove := FindPawn(pawns, id);
      if pawnToMove.None? || !pawnToMove.value.isMovable || CalculateNewPosition(pawnToMove.value, diceValue).None? {
        return;
      }
      var mover := pawnToMove.value;
      var newPosition := CalculateNewPosition(mover, diceValue).value;
      FindPawnWellFormed(pawns, id);
      ApplyMove(mover, newPosition);
    }

    /**
     * The part of Select after the guard: apply the move, clear the flags,
     * then either declare the current colour the winner or end the turn.
     */
    method ApplyMove(mover: Pawn, newPosition: Position)
      requires Valid() && gameState == InProgress && hasRolled
      requires 0 <= mover.id < |pawns| && pawns[mover.id] == mover && ValidPosition(newPosition)
      requires mover.color == CurrentColor()
      modifies this
      ensures Valid()
      ensures var o := Move(old(pawns), mover, newPosition);
        pawns == ClearMovable(o.pawns) && diceValue == old(diceValue) &&
        if FinishedCount(o.pawns, old(CurrentColor())) == PawnsPerPlayer then
          gameState == GameOver && winner == Some(old(CurrentColor())) &&
          currentPlayerIndex == old(currentPlayerIndex) && hasRolled
        else
          gameState == InProgress && winner == None && !hasRolled &&
          currentPlayerIndex == if old(diceValue) == 6 || o.captured then old(currentPlayerIndex)
                                else NextPlayer(old(currentPlayerIndex))
    {
      AfterMove(pawns, mover, newPosition);
      var outcome := Move(pawns, mover, newPosition);
      var updatedPawns, extraTurn := outcome.pawns, outcome.captured;
      pawns := ClearMovable(updatedPawns);

      var won := CheckForWinner(updatedPawns);
      if won {
        return;
      }
      ClearMovableNoFlags(pawns);
      NextTurn(diceValue == 6 || extraTurn);
    }
  }

  /**
   * Opening of a game: RED rolls a 6, which frees all four of its pawns;
   * moving pawn 0 puts it on RED's start spot, and RED keeps the turn.
   */
  method OpeningSixScenario()
  {
    var s := new Session();
    s.Start();
    ghost var atStart := s.pawns;
    assert atStart[0] == Pawn(0, Red, Base, false) && atStart[4].color == Green;
    assert CanMove(atStart, Red, 6) by {
      assert CalculateNewPosition(atStart[0], 6).Some?;
    }
    s.Roll(6);
    assert s.pawns[0].isMovable && s.pawns[3].isMovable && !s.pawns[4].isMovable;
    assert ClearMovable(s.pawns)[0] == ClearMovable(atStart)[0];
    assert s.pawns[0] == Pawn(0, Red, Base, true);
    assert s.Selectable(0);
    s.Select(0);
    assert s.pawns[0].position == Track(StartSpot(Red));
    assert s.currentPlayerIndex == 0 && !s.hasRolled && s.gameState == InProgress;
  }
}

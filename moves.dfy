/**
 * The move resolver: where a pawn ends up after a roll, or None when the roll
 * gives it no legal move.
 */
module Moves {
  import opened Wrappers
  import opened Constants

  /**
   * Where a pawn is. HomeRow steps are numbered from 1, as the game's
   * TypeScript code numbers its "R1".."R5" strings; step 6 of the home row is
   * Finished.
   */
  datatype Position = Base | Track(slot: nat) | HomeRow(step: nat) | Finished

  datatype Pawn = Pawn(id: int, color: Color, position: Position, isMovable: bool)

  const HomeRowLength: int := 5

  /** The home-row step at which a pawn is finished. */
  const FinishStep: int := HomeRowLength + 1

  /** Steps from a colour's start spot to Finished: 51 on the track, then 6 into home. */
  const RouteLength: int := TrackLength - 1 + FinishStep

  predicate IsRoll(roll: int)
  {
    1 <= roll <= 6
  }

  /** The positions the game can produce: a slot on the track, or home-row step 1..5. */
  predicate ValidPosition(p: Position)
  {
    match p
    case Track(t) => t < TrackLength
    case HomeRow(n) => 1 <= n <= HomeRowLength
    case _ => true
  }

  /**
   * The resolver. The game's TypeScript code treats RED separately when it
   * tests for the home entry, with the same condition as the other colours, so
   * one rule is used here.
   */
  function CalculateNewPosition(pawn: Pawn, roll: int): (r: Option<Position>)
    requires IsRoll(roll)
    ensures r.Some? ==> r.value != Base
    ensures ValidPosition(pawn.position) && r.Some? ==> ValidPosition(r.value)
  {
    match pawn.position
    case Finished => None
    case Base =>
      if roll == 1 || roll == 6 then Some(Track(StartSpot(pawn.color))) else None
    case HomeRow(n) =>
      var newHomePos := n + roll;
      if newHomePos < FinishStep then Some(HomeRow(newHomePos))
      else if newHomePos == FinishStep then Some(Finished)
      else None
    case Track(p) =>
      var homeEntry := HomeEntryPoint(pawn.color);
      if p <= homeEntry && p + roll > homeEntry then
        var stepsIntoHome := roll - (homeEntry - p);
        if stepsIntoHome > FinishStep then None
        else if stepsIntoHome == FinishStep then Some(Finished)
        else Some(HomeRow(stepsIntoHome))
      else
        Some(Track((p + roll) % TrackLength))
  }

  // ---------------------------------------------------------------------------
  // A reference description of the rules: every colour runs the same route of
  // RouteLength + 1 places, from its start spot once round the track and up its
  // home row, and a roll moves a pawn that many places along it.
  // ---------------------------------------------------------------------------

  /** The place g steps along colour c's route. */
  function RouteAt(c: Color, g: nat): (p: Position)
    requires g <= RouteLength
    ensures ValidPosition(p) && p != Base
  {
    if g < TrackLength then Track((StartSpot(c) + g) % TrackLength)
    else if g < RouteLength then HomeRow(g - (TrackLength - 1))
    else Finished
  }

  /** How many steps along colour c's route a position is. */
  function Progress(c: Color, p: Position): (g: nat)
    requires ValidPosition(p) && p != Base
    ensures g <= RouteLength
  {
    match p
    case Track(t) => (t - StartSpot(c)) % TrackLength
    case HomeRow(n) => TrackLength - 1 + n
    case Finished => RouteLength
  }

  /** Route places and progress counts are in one-to-one correspondence. */
  lemma RouteRoundTrip(c: Color, g: nat)
    requires g <= RouteLength
    ensures Progress(c, RouteAt(c, g)) == g
  {
    if g < TrackLength {
      var s := StartSpot(c);
      assert s < TrackLength;
      if s + g < TrackLength {
        assert (s + g) % TrackLength == s + g;
      } else {
        assert (s + g) % TrackLength == s + g - TrackLength;
        assert (s + g - TrackLength - s) % TrackLength == g;
      }
    }
  }

  lemma ProgressRoundTrip(c: Color, p: Position)
    requires ValidPosition(p) && p != Base
    ensures RouteAt(c, Progress(c, p)) == p
  {
    if p.Track? {
      var s, t := StartSpot(c), p.slot;
      if s <= t {
        assert (t - s) % TrackLength == t - s;
      } else {
        assert (t - s) % TrackLength == t - s + TrackLength;
      }
    }
  }

  /**
   * A track slot's progress is its distance behind the colour's home entry
   * (which is 51 steps along the route) when it is at or before the entry,
   * and its distance past the start spot otherwise.
   */
  lemma TrackProgress(c: Color, p: nat)
    requires p < TrackLength
    ensures Progress(c, Track(p)) ==
              if p <= HomeEntryPoint(c) then TrackLength - 1 - (HomeEntryPoint(c) - p)
              else p - StartSpot(c)
    ensures p > HomeEntryPoint(c) ==> StartSpot(c) <= p
  {
    var s, e := StartSpot(c), HomeEntryPoint(c);
    if c != Red && p <= e {
      assert s == e + 1;
      assert (p - s) % TrackLength == p - s + TrackLength;
    }
  }

  /**
   * The main property of the resolver: a pawn that is out of its base moves
   * exactly `roll` places along its colour's route, and has no move when that
   * would carry it past Finished.
   */
  lemma MoveFollowsRoute(pawn: Pawn, roll: int)
    requires IsRoll(roll) && ValidPosition(pawn.position) && pawn.position != Base
    ensures var g := Progress(pawn.color, pawn.position) + roll;
            CalculateNewPosition(pawn, roll) == if g <= RouteLength then Some(RouteAt(pawn.color, g)) else None
  {
    if pawn.position.Track? {
      TrackMoveFollowsRoute(pawn, pawn.position.slot, roll);
    }
  }

  lemma TrackMoveFollowsRoute(pawn: Pawn, p: nat, roll: int)
    requires IsRoll(roll) && pawn.position == Track(p) && p < TrackLength
    ensures var g := Progress(pawn.color, pawn.position) + roll;
            g <= RouteLength && CalculateNewPosition(pawn, roll) == Some(RouteAt(pawn.color, g))
  {
    var c := pawn.color;
    var s, e := StartSpot(c), HomeEntryPoint(c);
    var g0 := Progress(c, pawn.position);
    TrackProgress(c, p);
    if p <= e && p + roll > e {
      // the roll carries the pawn past its home entry, 51 steps along the route
      assert g0 + roll == TrackLength - 1 + (roll - (e - p));
    } else {
      assert g0 + roll < TrackLength;
      assert s + g0 == p || s + g0 == p + TrackLength;
      assert (s + g0 + roll) % TrackLength == (p + roll) % TrackLength;
    }
  }

  /**
   * A pawn that is out of its base is moved strictly forward: its progress
   * grows by exactly the roll.
   */
  lemma MoveAdvancesProgress(pawn: Pawn, roll: int)
    requires IsRoll(roll) && ValidPosition(pawn.position) && pawn.position != Base
    requires CalculateNewPosition(pawn, roll).Some?
    ensures Progress(pawn.color, CalculateNewPosition(pawn, roll).value)
            == Progress(pawn.color, pawn.position) + roll
  {
    MoveFollowsRoute(pawn, roll);
    RouteRoundTrip(pawn.color, Progress(pawn.color, pawn.position) + roll);
  }

  /** A finished pawn never moves. */
  lemma FinishedNeverMoves(pawn: Pawn, roll: int)
    requires IsRoll(roll) && pawn.position == Finished
    ensures CalculateNewPosition(pawn, roll) == None
  {
  }

  /**
   * A pawn in its base moves only on a roll of 1 or 6, and then onto its
   * colour's start spot, the first place of its route.
   */
  lemma BaseMove(pawn: Pawn, roll: int)
    requires IsRoll(roll) && pawn.position == Base
    ensures CalculateNewPosition(pawn, roll).Some? <==> roll == 1 || roll == 6
    ensures CalculateNewPosition(pawn, roll).Some? ==>
              CalculateNewPosition(pawn, roll).value == Track(StartSpot(pawn.color)) == RouteAt(pawn.color, 0)
  {
  }

  /**
   * On the home row a pawn at step n moves to step n + roll while that is at
   * most 5, finishes on exactly 6, and an overshoot is rejected, not clamped.
   */
  lemma HomeRowMove(pawn: Pawn, n: nat, roll: int)
    requires IsRoll(roll) && pawn.position == HomeRow(n)
    ensures CalculateNewPosition(pawn, roll).Some? <==> n + roll <= FinishStep
    ensures n + roll < FinishStep ==> CalculateNewPosition(pawn, roll) == Some(HomeRow(n + roll))
    ensures CalculateNewPosition(pawn, roll) == Some(Finished) <==> n + roll == FinishStep
  {
  }

  /**
   * A pawn on the track always has a move. It turns into its home row exactly
   * when the roll carries it past its home entry; the steps it then takes into
   * the home row lie between 1 and the roll, so the overshoot case of the
   * game's TypeScript code never arises there. Otherwise it stays on the track.
   */
  lemma TrackMove(pawn: Pawn, p: nat, roll: int)
    requires IsRoll(roll) && pawn.position == Track(p) && p < TrackLength
    ensures var e := HomeEntryPoint(pawn.color);
            var r := CalculateNewPosition(pawn, roll);
            r.Some? &&
            (r.value.Track? <==> !(p <= e < p + roll)) &&
            (r.value.Track? ==> r.value.slot == (p + roll) % TrackLength < TrackLength) &&
            (p <= e < p + roll ==>
               1 <= roll - (e - p) <= roll &&
               r.value == if roll - (e - p) == FinishStep then Finished else HomeRow(roll - (e - p)))
  {
  }

  /** Example: RED at slot 49 with a roll of 3 passes its entry, slot 51, by one step and lands on home-row step 1. */
  lemma RedEntersHomeFrom49()
    ensures CalculateNewPosition(Pawn(0, Red, Track(49), false), 3) == Some(HomeRow(1))
  {
  }
}

# Ludo Classic: game rules and turn controller in Dafny

This project models the game logic of Ludo Classic, a four-player race game.
Each player moves four pawns out of a base, once around a shared circular track
of 52 slots and up a private home row of five steps to the finish. The model has
three parts:

- `constants.dfy` (module `Constants`) holds the static tables of the board:
  - the player order RED, GREEN, YELLOW, BLUE;
  - the 52 grid cells of the track;
  - each colour's home-row, home-triangle and base cells;
  - the start spots, the home-entry points and the safe spots.

  `TrackSlotAt` reads the slot number off a grid cell from the shape of the board. It is an independent description of the track, and the coordinate table is proved against it.
- `moves.dfy` (module `Moves`) holds the move resolver `CalculateNewPosition`. It takes a pawn and a roll and gives the pawn's new position, or `None` when the roll gives the pawn no legal move. Positions are a datatype: `Base`, `Track(slot)`, `HomeRow(step)` with steps 1..5, and `Finished`.
  - A reference description of the rules goes beside it. Every colour runs the same route of 58 places (progress 0..57), from its start spot once round the track and up its home row.
  - For a pawn out of its base, the resolver is proved to move it exactly `roll` places along that route. It returns `None` for such a pawn exactly when the roll would overshoot the finish. A pawn in its base moves only on a 1 or a 6, onto the first place of its route.
- `game.dfy` (module `Game`) holds the turn controller, the class `Session`. Its fields are the pawn list, the current player index, the dice value, the has-rolled flag, the game state (`NotStarted`, `InProgress`, `GameOver`) and the winner.
  - It has the transitions `Start`, `Roll(roll)` and `Select(id)`, and the internal steps `NextTurn` and `CheckForWinner`.
  - The class invariant `Valid` says:
    - once a game has started, the pawn list is well formed: 16 pawns, pawn k has id k and belongs to player k / 4; before that it is empty and nobody has rolled;
    - a winner is recorded exactly when the game is over, and then that colour has four finished pawns;
    - while the game is in progress, no colour has four finished pawns;
    - a pawn is flagged movable only while the game is in progress, the current player has rolled, the pawn is of the current colour and the roll can move it;
    - conversely, once the current player has rolled in a game in progress, every pawn of the current colour that the roll can move is flagged.
  - Pure functions on pawn lists specify each transition, so lemmas can state frame and capture properties of a move.

`wrappers.dfy` defines the `Option` type, which stands for the `null` results of the game's TypeScript code.

## Model

| member | source | states |
|---|---|---|
| Moves.CalculateNewPosition | ludo-classic/App.tsx:9-71 | the resolver never sends a pawn back to base, and from a valid position (a track slot below 52 or a home-row step 1..5) it only reaches valid positions |
| Moves.FinishedNeverMoves | ludo-classic/App.tsx:12-14 | a finished pawn has no move for any roll |
| Moves.BaseMove | ludo-classic/App.tsx:16-20 | a pawn in base has a move exactly on a roll of 1 or 6, and it then lands on its colour's start spot, the first place of its route |
| Moves.HomeRowMove | ludo-classic/App.tsx:22-33 | on the home row, step n plus the roll below 6 gives that step, exactly 6 gives Finished, and beyond 6 gives no move (overshoot is rejected, not clamped) |
| Moves.TrackMove | ludo-classic/App.tsx:35-67 | a track pawn always has a move; it turns into its home row exactly when p <= entry < p + roll; the steps it then takes into the home row lie in 1..roll, so the overshoot branch never fires; otherwise it goes to slot (p + roll) mod 52, which is below 52 |
| Moves.RedEntersHomeFrom49 | ludo-classic/App.tsx:36-63 | RED on slot 49 with a roll of 3 enters home-row step 1 |
| Moves.Progress | ludo-classic/constants.ts:58-70 | every position out of base has a route progress between 0 and 57 |
| Moves.RouteAt | ludo-classic/constants.ts:58-70 | every place of a colour's route is a valid position outside base |
| Moves.RouteRoundTrip | ludo-classic/constants.ts:58-70 | the progress of the place g steps along the route is g |
| Moves.ProgressRoundTrip | ludo-classic/constants.ts:58-70 | the route place at a position's progress is that position, so routes and progress counts correspond one to one |
| Moves.TrackProgress | ludo-classic/constants.ts:58-70 | a track slot at or before the colour's home entry is 51 - (entry - slot) steps along the route; a slot past the entry lies at or after the start spot |
| Moves.TrackMoveFollowsRoute | ludo-classic/App.tsx:35-67 | from a track slot, a roll never overshoots the route, and the resolver returns the route place exactly roll steps further on |
| Moves.MoveFollowsRoute | ludo-classic/App.tsx:9-71 | for any pawn out of base, the resolver returns the route place `roll` steps further on when that is within the route, and no move when it would pass Finished |
| Moves.MoveAdvancesProgress | ludo-classic/App.tsx:9-71 | every legal move of a pawn out of base increases its route progress by exactly the roll |
| Constants.TurnOrder | ludo-classic/constants.ts:4-9 | there are exactly four players, in the order RED, GREEN, YELLOW, BLUE |
| Constants.PlayerColorsDistinct | ludo-classic/constants.ts:4-9 | no two players share a colour |
| Constants.TrackSlotAt | ludo-classic/constants.ts:20-35 | the slot read off a grid cell, when there is one, is below 52 |
| Constants.TrackSlotAtTrackCoords | ludo-classic/constants.ts:20-35 | each track cell lies on the 15 x 15 board, and reading the slot off it gives back its index |
| Constants.TrackQuarterAgrees | ludo-classic/constants.ts:20-35 | the same, for the 13 slots of one quarter of the track |
| Constants.TrackCoordsOnBoard | ludo-classic/constants.ts:18-35 | the track table has exactly 52 cells, all on the board |
| Constants.TrackCoordsDistinct | ludo-classic/constants.ts:20-35 | no two track slots share a grid cell |
| Constants.StartFollowsHomeEntry | ludo-classic/constants.ts:58-70 | each colour's start spot is the slot just after its home entry, mod 52 |
| Constants.StartSpotsEvenlySpaced | ludo-classic/constants.ts:58-63 | player i starts on slot 13 * i, which is below 52 |
| Constants.SafeSpotsCharacterised | ludo-classic/constants.ts:72-75 | there are eight safe spots, and a slot is safe exactly when it is a track slot that is 0 or 8 mod 13 |
| Constants.StartSpotsSafe | ludo-classic/constants.ts:72-75 | every start spot, and the slot eight past it, is safe |
| Constants.HomeCellsOffTrack | ludo-classic/constants.ts:37-56 | each colour has five home-row cells and four base cells; they and the home triangle are on the board, and none of them is a track cell |
| Constants.HomeCellsNotTrackCoords | ludo-classic/constants.ts:37-56 | no home-row, base or triangle cell appears in the track table |
| Game.FindPawn | ludo-classic/App.tsx:150 | the lookup returns a pawn of the list with the id asked for, or none exactly when no pawn has that id |
| Game.FindPawnWellFormed | ludo-classic/App.tsx:150-151 | in a well-formed list, looking up id k finds the pawn at index k, and an id outside 0..15 finds nothing |
| Game.Opponents | ludo-classic/App.tsx:164-165 | the pawns found on a destination are exactly the list's pawns of another colour on that track slot |
| Game.OpponentsSingle | ludo-classic/App.tsx:165-166 | when exactly one pawn of another colour stands on the slot, the filter returns exactly that pawn |
| Game.OpponentsNone | ludo-classic/App.tsx:165 | when no pawn of another colour stands on the slot, the filter is empty |
| Game.MovablePawns | ludo-classic/App.tsx:136-138 | the filtered pawns are exactly those of the current colour that the resolver can move |
| Game.MovablePawnsNonEmpty | ludo-classic/App.tsx:136-140 | the filter is non-empty exactly when some pawn of the colour has a legal move |
| Game.MarkMovableExact | ludo-classic/App.tsx:140-141 | after marking, a pawn is flagged exactly when it is of the current colour and has a legal move, and nothing but the flags changes |
| Game.FinishedCount | ludo-classic/App.tsx:126 | the count of finished pawns of a colour is at most the list length, and positive exactly when some such pawn exists |
| Game.ColorCount | ludo-classic/App.tsx:126 | the number of pawns of a colour is at most the list length |
| Game.FinishedCountAtMostColorCount | ludo-classic/App.tsx:126 | a colour has at most as many finished pawns as pawns, and exactly as many when every pawn of the colour is finished |
| Game.ColorCountUniform | ludo-classic/App.tsx:86-94 | in a list of pawns of one colour, that colour counts every pawn and any other colour none |
| Game.BlockColor | ludo-classic/App.tsx:86-94 | in a well-formed list, the i-th block of four pawns holds four pawns of player i's colour and none of any other |
| Game.ColorCountWellFormed | ludo-classic/App.tsx:86-94 | a well-formed list holds exactly four pawns of every colour |
| Game.WinMeansAllFinished | ludo-classic/App.tsx:125-127 | in a well-formed list a colour never has more than four finished pawns, and has four exactly when every pawn of that colour is finished |
| Game.FinishedCountClearMovable | ludo-classic/App.tsx:173-175 | clearing the flags changes no finished count |
| Game.ResolverIgnoresFlag | ludo-classic/App.tsx:9-71 | the resolver's answer does not depend on a pawn's movable flag |
| Game.ClearMovable | ludo-classic/App.tsx:115-121 | after clearing, no pawn is flagged and nothing but the flags has changed |
| Game.ClearMovableWellFormed | ludo-classic/App.tsx:115 | clearing the flags keeps the list well formed and leaves no pawn flagged |
| Game.ClearMovableNoFlags | ludo-classic/App.tsx:115-121 | clearing a list that has no flags leaves it as it is |
| Game.MarkMovable | ludo-classic/App.tsx:141 | after marking, a pawn is flagged exactly when it was flagged before or its id occurs among the movable pawns, and nothing but the flags has changed |
| Game.WithPosition | ludo-classic/App.tsx:161-167 | updating a position by id changes only positions: the pawns with that id are at the new position, and every other pawn is untouched |
| Game.WithPositionAt | ludo-classic/App.tsx:161 | when ids are indices, updating a position by id changes exactly that pawn's position |
| Game.CaptureVictim | ludo-classic/App.tsx:164-168 | a capturing move has an unsafe track destination where exactly one opponent stood, and sends that pawn, which is not the mover, back to base |
| Game.MoveFrame | ludo-classic/App.tsx:160-171 | a move puts the mover on its destination and changes at most one other pawn, an opponent that stood on the destination, which goes to base; ids, colours and flags never change, and own-colour pawns are never captured |
| Game.CaptureRule | ludo-classic/App.tsx:164-170 | a move captures exactly when the destination is a track slot that is not safe and exactly one pawn of another colour stands on it |
| Game.Move | ludo-classic/App.tsx:160-171 | the update-and-capture step keeps the list length, captures only on a track slot that is not safe, and without a capture only moves the mover |
| Game.FinishedCountMono | ludo-classic/App.tsx:126 | a colour cannot have more finished pawns in a list whose finished pawns of that colour were all already finished, at the same places, in another |
| Game.MoveFinishesOnlyMover | ludo-classic/App.tsx:160-171 | a move never increases the number of finished pawns of a colour other than the mover's |
| Game.SameFinishedCounts | ludo-classic/App.tsx:141 | lists that differ only in their flags have the same finished count for every colour |
| Game.MovePreservesWellFormed | ludo-classic/App.tsx:160-171 | a move to a valid position keeps the pawn list well formed |
| Game.AfterMove | ludo-classic/App.tsx:160-175 | after a move and the clearing of the flags, the list is well formed and nothing is flagged; every colour's finished count is what the move left, at most four, and no colour other than the mover's has gained a finished pawn |
| Game.NewPawns | ludo-classic/App.tsx:85-94 | the initial list has 16 pawns; pawn k has id k, the colour of player k / 4, is in base and is not flagged |
| Game.NextPlayer | ludo-classic/App.tsx:117 | the next player index is always a valid index |
| Game.TurnRotation | ludo-classic/App.tsx:117 | the turn passes RED to GREEN to YELLOW to BLUE and back to RED |
| Game.Session.constructor | ludo-classic/App.tsx:75-82 | a new session has not started: no pawns, player 0, dice 6, no roll, no winner |
| Game.Session.Start | ludo-classic/App.tsx:84-102 | starting gives the initial pawn list, player 0, dice 1, the game in progress, no winner and no roll, and establishes the invariant |
| Game.Session.NextTurn | ludo-classic/App.tsx:111-123 | the same player keeps the turn on an extra turn, otherwise the next player gets it; every flag is cleared and the has-rolled flag is reset |
| Game.Session.CheckForWinner | ludo-classic/App.tsx:125-134 | the current colour wins exactly when four of its pawns are finished; the game is then over with that winner, and otherwise nothing changes |
| Game.Session.Roll | ludo-classic/App.tsx:184-194 | a roll outside a game in progress, or a second roll in a turn, changes nothing; otherwise the dice shows the roll and exactly the current colour's movable pawns are flagged; the turn goes on if there is such a pawn, and when there is none it passes, staying with the player only on a 6; the invariant is kept |
| Game.Session.FindMovablePawns | ludo-classic/App.tsx:136-147 | after a roll, a pawn is flagged exactly when it is of the current colour and the roll can move it, and nothing else about the pawns changes; with such a pawn the player keeps the turn to choose, and without one the turn ends, staying with the player only on a 6; the invariant is established |
| Game.Session.Select | ludo-classic/App.tsx:149-182 | selecting a pawn that does not exist or is not flagged changes nothing; otherwise the new pawn list is the move's result with every flag cleared; four finished pawns end the game with the current colour as winner, and otherwise the turn ends, staying with the player after a 6 or a capture and passing to the next player otherwise; the invariant is kept, so no colour has four finished pawns while the game goes on |
| Game.Session.ApplyMove | ludo-classic/App.tsx:160-181 | the same outcome, stated for a mover and destination already checked by the guard |

## Left out

- Rendering is not modelled: the JSX (ludo-classic/App.tsx:208-255), `getFinishedCount` (206) and the render copy that spreads base pawns into per-slot `HOME_<color>_<i>` positions (196-204). Both `'HOME'` and `HOME_*` map to `Base`.
- `Math.random` is not modelled. The roll is the `roll` parameter of `Roll`, with `1 <= roll <= 6`.
- Timers are not modelled. The 500 ms dice animation, the `isRolling` flag and the 1 s delay before the turn passes on a roll with no move are all dropped, and each transition is immediate and atomic. React state batching and stale closures are not modelled either: each setter takes effect at once, in program order.
- `setMessage` texts and `console.error` are left out. They carry no game logic, and player names are kept only in `Players`.
- `PLAYER_COLORS_HEX` is left out because it holds CSS class names.
- The UI components are not part of this model: components/Board.tsx, components/Dice.tsx, components/Pawn.tsx and the files under ludo-classic/components.
- ludo-classic/types.ts is replaced by the `Color`, `Player`, `Position`, `Pawn` and `GameState` datatypes. A missing `isMovable` is modelled as `false`.
- The position strings are not modelled. The model uses the `Position` datatype rather than numbers and strings, so a malformed string position, which the TypeScript code could misparse, cannot be written.
- Game.Session.constructor: the app starts a game as soon as it mounts, because an effect calls `initializeGame` (ludo-classic/App.tsx:104-107). The model does not start a game on construction: the constructor gives the initial `NotStarted` state, and a separate call to `Start` stands for the effect.
- Game.Session.Start: like `initializeGame`, it has no guard. The button that calls it is shown only when no game is in progress, but the model does not restrict the call to that state.
- Game.Session.Select: the TypeScript code's two early returns are merged into one guard. One fires for a missing or unflagged pawn, the other for a flagged pawn without a move. Under the session invariant the second never fires.
- Game.Session.Select: after a winning move, `hasRolled` stays true, as in the TypeScript code. No turn change follows a win.
- Home-row steps are numbered 1..5, with 6 meaning finished, as in the code's `R1`..`R5` strings; the model keeps that numbering.

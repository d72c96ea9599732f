# Thud rules engine, modelled in Dafny

This project models the rules engine of a Rust implementation of the board game Thud. In Thud,
32 dwarves and 8 trolls play on an octagonal board of 15 x 15 squares with the corners cut off.
The Thudstone sits in the centre. The model covers the following parts of the engine:

- coordinates and their bounds check (`Coord`);
- the eight compass directions (`Direction`);
- the pieces (`Piece`);
- the board (`Board`): its starting layout, the five move primitives (troll move, troll shove,
  troll capture, dwarf move, dwarf hurl), the ray cast and the line counts they rely on, the
  list of available moves, scoring and the end-of-game test;
- the turn machine (`Thud`), which holds a board and a phase.

The model follows the source's own form. `Board` and `RayCast` are classes over mutable state
(a 15 x 15 `array2` and an iterator position). `Thud` is a class whose methods change its board
and its phase. Every method is proved equal to a pure function of the state it started from.
The rules are proved about those functions, one module per concern:

| module | file | what it holds |
|---|---|---|
| `Players`, `Types` | types.dfy | players, end states, error values, `Option` and `Result` |
| `Coords` | coord.dfy | `Coord`; the region and its 165 squares; `diff`, `max` and the Chebyshev distance |
| `Directions` | direction.dfy | the compass, `modifier`, `obtain`, `modify`, `from_route`, `opposite` |
| `Pieces` | piece.dfy | `Piece`, its default, `into_int` |
| `Grids` | grid.dfy | the board as a value (`full_raw`), `place`, `army`, the starting layout and its piece counts |
| `Setup` | setup.dfy | the state reached after each placement loop of `fresh` |
| `Rays` | ray.dfy | the squares a ray cast visits |
| `Lines` | lines.dfy | `count_line`, `verify_clear` and `adjacent` as functions |
| `Moves` | moves.dfy | the five move primitives as functions on the board value, and what they preserve |
| `Available` | available.dfy | `available_moves`, `score` and `winner` as functions, related to the move primitives |
| `Boards` | board.dfy | the `Board` and `RayCast` classes, each method proved against the functions above |
| `Scenarios` | scenarios.dfy | the board tests' scenarios, as lemmas |
| `Phases` | phases.dfy | the turn machine as a function on (board, phase) and its properties |
| `Game` | state.dfy | the `Thud` class, each method proved against `Phases` |

Coordinates are zero-based throughout. `(x, y)` addresses column x, row y, and `Up` raises y.

## Model

| member | source | states |
|---|---|---|
| Coords.CheckCoords | src/coord.rs:11-29 | succeeds exactly on the octagon (both components at most 14, component sum 5 to 23, the two outer-corner cuts); otherwise InvalidPosition |
| Coords.ZeroBased | src/coord.rs:39-42 | succeeds exactly when the four corner cuts hold, and then holds the pair given; otherwise InvalidPosition |
| Coords.OneBased | src/coord.rs:44-47 | the square one lower on both axes when that square is on the board, else InvalidPosition |
| Coords.FromPair | src/coord.rs:107-111 | the unwrapping conversion: defined on board squares only, where it agrees with zero_based |
| Coords.Value | src/coord.rs:49-55 | the pair read back lies on the board and rebuilds the same coordinate |
| Coords.ValueRoundTrip | src/coord.rs:39-55 | value() of a successful zero_based(x, y) is (x, y), and (x, y) is on the board |
| Coords.Max | src/coord.rs:70-76 | at least both components and equal to one of them |
| Coords.Diff | src/coord.rs:91-104 | each component is the absolute difference of the two inputs' components |
| Coords.DiffSymmetric | src/coord.rs:91-104 | diff and the distance ignore argument order; diff is zero exactly for equal squares |
| Coords.Chebyshev | src/board/mod.rs:183 | the distance diff().max() is zero exactly for equal squares |
| Coords.ChebyshevExamples | src/coord.rs:146-157 | the diff/max values of the distance tests and of the doc examples |
| Coords.RegionExamples | src/coord.rs:118-132 | the squares the coordinate tests accept and the five they reject |
| Coords.RegionSymmetric | src/coord.rs:11-29 | the region is symmetric under swapping the axes and under a half turn |
| Coords.RegionSize | src/coord.rs:11-29 | the region holds 165 squares |
| Directions.Modifier | src/direction.rs:15-26 | each step is a unit move on both axes and never (0, 0) |
| Directions.ModifierInjective | src/direction.rs:15-26 | different directions step differently |
| Directions.Obtain | src/direction.rs:28-61 | fails exactly when the two squares share no column, no row and no equal-difference diagonal |
| Directions.ObtainCases | src/direction.rs:28-61 | Up/Down on a column, Down for equal squares, Right/Left on a row, UpRight/DownLeft on the rising diagonal |
| Directions.ObtainVersusFromRoute | src/direction.rs:44-57 | on a falling diagonal obtain returns the opposite of the direction of travel; otherwise it returns the direction of travel |
| Directions.Modify | src/board/raycast.rs:21-28 | one step in the direction; MathError exactly when the step leaves the board |
| Directions.ModifyRoute | src/board/raycast.rs:21-28 | a step lands one square away, on the route in that direction, and stepping back returns to the start |
| Directions.Opposite | src/board/mod.rs:291-294 | the reverse step |
| Directions.OppositeInvolutive | src/board/mod.rs:291-294 | reversing twice is the identity, and no direction is its own opposite |
| Directions.All | src/board/mod.rs:114-123 | eight entries, every direction once |
| Directions.FromRoute | src/board/mod.rs:380-381 | Ok exactly for distinct squares on a common line, with the signs of the coordinate differences as its step; MathError otherwise |
| Directions.RouteReachesEnd | src/board/mod.rs:177-181 | as many steps as the distance lead from start to end, and the route back is the opposite direction |
| Pieces.Default | src/piece.rs:21-25 | the default piece is Empty |
| Pieces.IntoInt | src/piece.rs:29-36 | the fixed codes Empty 0, Dwarf 1, Troll 2, Thudstone 3; a value in 0 to 3, zero exactly for Empty |
| Pieces.IntoIntBijective | src/piece.rs:29-36 | the encoding is one-to-one and reaches every value in 0 to 3 |
| Grids.EmptyGrid | src/board/mod.rs:19-23 | the default board holds the default piece everywhere |
| Grids.Placed | src/board/mod.rs:72-75 | the square now holds the piece, and no other square changes |
| Grids.Cells | src/board/mod.rs:97-109 | the set of squares holding the piece |
| Grids.CountPlaced | src/board/mod.rs:72-75 | how one placement changes the set and the number of squares holding each piece |
| Grids.ArmyBeforeShape | src/board/mod.rs:97-109 | the scan of the first x columns lists exactly their squares holding the piece, in scan order |
| Grids.ArmyExact | src/board/mod.rs:97-109 | army lists exactly the squares holding the piece, in scan order without repeats, and its length is their number |
| Grids.Arm | src/board/mod.rs:39-50 | each of the four arm formulas lands on its own edge diagonal |
| Grids.ArmSeedExact | src/board/mod.rs:39-50 | every square of an arm comes from exactly one seed 0 to 5 |
| Grids.ExtrasExact | src/board/mod.rs:52-64 | the eight extra dwarves are exactly the squares flanking the middle of each edge |
| Grids.FreshGrid | src/board/mod.rs:29-69 | every square holds the starting piece for that square |
| Grids.FreshSpots | src/board/tests.rs:19-28 | the squares the fresh-layout test checks hold the Thudstone, trolls and a dwarf |
| Grids.FreshTrolls | src/board/mod.rs:31-36 | the trolls stand exactly on the eight squares around the centre |
| Grids.FreshDwarves | src/board/mod.rs:37-65 | the dwarves stand exactly on the 32 arm and edge squares |
| Grids.FreshOneStone | src/board/mod.rs:67 | exactly one Thudstone, on the centre |
| Setup.StartStage | src/board/mod.rs:30 | the default board is the state before the troll loops |
| Setup.TrollStep | src/board/mod.rs:32-36 | each troll placement extends the filled part of the troll block by one square |
| Setup.TrollRow | src/board/mod.rs:32-36 | a finished row of the troll loops starts the next one |
| Setup.TrollsDone | src/board/mod.rs:32-36 | the finished troll loops leave the full block, and no dwarf yet |
| Setup.ArmStep | src/board/mod.rs:46-50 | each arm placement adds that seed's dwarf and keeps everything else |
| Setup.ArmDone | src/board/mod.rs:46-50 | a finished arm starts the next one |
| Setup.ExtraStep | src/board/mod.rs:52-64 | each extra dwarf placement adds that dwarf |
| Setup.ExtrasPlaced | src/board/mod.rs:52-64 | after all eight, exactly the extra squares carry extra dwarves |
| Setup.StoneDone | src/board/mod.rs:66-68 | the Thudstone on the centre completes the starting layout |
| Rays.RaySteps | src/board/raycast.rs:10-28 | the k-th square of the ray lies k + 1 steps from the start, and the step after the last leaves the board |
| Rays.RayExact | src/board/raycast.rs:10-28 | the ray has at least k squares exactly when k steps stay on the board |
| Rays.RayLength | src/board/raycast.rs:10-28 | no ray is longer than 14 squares |
| Rays.RayRoute | src/board/raycast.rs:10-28 | the k-th square of the ray lies in the ray's direction at distance k + 1 |
| Rays.RayThrough | src/board/raycast.rs:10-28 | a square on the route from the start is on the ray, at index distance - 1, and nowhere earlier |
| Rays.RayFirst | src/board/raycast.rs:10-16 | the cast starts on the neighbouring square |
| Rays.RayTail | src/board/raycast.rs:21-28 | after its first square, the ray goes on as the ray from that square |
| Rays.CastLengthUp | src/board/tests.rs:87-96 | the cast length test of (7, 6) upwards: 8 |
| Rays.CastLengthDown | src/board/tests.rs:87-96 | the cast length test of (5, 0) downwards: 0 |
| Rays.CastLengthUpLeft | src/board/tests.rs:87-96 | the cast length test of (3, 6) to the upper left: 3 |
| Rays.CastLengthDownLeft | src/board/tests.rs:87-96 | the cast length test of (14, 9) to the lower left: 9 |
| Rays.CastUpFromBelowCentre | src/board/tests.rs:98-113 | the cast from (7, 6) upwards visits (7, 7) to (7, 14); on the default board with the Thudstone on (7, 7) it yields the Thudstone first and Empty on every later square |
| Lines.MatchRun | src/board/mod.rs:404-409 | the run of the piece at the front of a sequence: all match, and the next square (if any) does not |
| Lines.CountLine | src/board/mod.rs:398-411 | zero exactly when the start does not hold the piece; otherwise the start plus the run of the piece along the ray, at most 15 |
| Lines.CountLineStep | src/board/mod.rs:398-411 | one square further along the line, the count is one less |
| Lines.CountLineDwarfArm | src/board/tests.rs:125-131 | count_line test: six dwarves up-left from (5, 0) |
| Lines.CountLineDwarfAlone | src/board/tests.rs:125-131 | count_line test: one dwarf upwards from (5, 0) |
| Lines.CountLineTrollColumn | src/board/tests.rs:125-131 | count_line test: three trolls upwards from (6, 6) |
| Lines.CountLineTrollRow | src/board/tests.rs:125-131 | count_line test: two trolls to the right of (7, 6) |
| Lines.Between | src/board/mod.rs:383-388 | the squares strictly between two squares on a line, one per step, in order |
| Lines.BetweenPrefix | src/board/mod.rs:383-388 | the squares between are the start of the ray towards the target |
| Lines.FirstOccupied | src/board/mod.rs:383-393 | none when every square is empty; else the first occupied index, with only empty squares before it |
| Lines.VerifyClear | src/board/mod.rs:380-396 | MathError off a line; otherwise Ok exactly when every square between is empty, else Obstacle at the first occupied one |
| Lines.VerifyClearStops | src/board/mod.rs:388-392 | the obstacle reported is the first occupied square between |
| Lines.VerifyClearRow | src/board/tests.rs:115-123 | verify_clear test: (6, 7) to (0, 7) is clear |
| Lines.VerifyClearDiagonal | src/board/tests.rs:115-123 | verify_clear test: (6, 6) to (3, 3) is clear |
| Lines.VerifyClearRising | src/board/tests.rs:115-123 | verify_clear test: (8, 0) to (13, 5) is clear |
| Lines.VerifyClearBlocked | src/board/tests.rs:115-123 | verify_clear test: (7, 7) to (0, 7) is blocked by the troll on (6, 7) |
| Lines.AdjacentOver | src/board/mod.rs:114-123 | one entry per direction whose step stays on the board, each a neighbour with its piece |
| Lines.AdjacentExact | src/board/mod.rs:114-123 | at most eight entries, and a square is listed with its piece exactly when it is a neighbour |
| Lines.AdjacentLeftEdge | src/board/tests.rs:30-36 | adjacent test: (0, 7) has five neighbours |
| Lines.AdjacentBottomEdge | src/board/tests.rs:30-36 | adjacent test: (7, 0) has five neighbours |
| Lines.AdjacentTopEdge | src/board/tests.rs:30-36 | adjacent test: (7, 14) has five neighbours |
| Lines.AdjacentRightEdge | src/board/tests.rs:30-36 | adjacent test: (14, 7) has five neighbours |
| Lines.FilterDwarves | src/board/mod.rs:168-172 | keeps exactly the entries holding a dwarf |
| Lines.AdjacentDwarvesExact | src/board/mod.rs:168-175 | the dwarf list is non-empty exactly when some neighbour holds a dwarf |
| Moves.Relocate | src/board/mod.rs:143-146 | the piece is on the target, the source is empty, and nothing else changes |
| Moves.LineBehind | src/board/mod.rs:177-182 | the line counted from the mover away from the target |
| Moves.TrollMove | src/board/mod.rs:132-148 | Ok exactly for a troll stepping onto an empty neighbour, and the troll then has moved; IllegalMove otherwise |
| Moves.TrollShove | src/board/mod.rs:162-194 | IllegalMove unless a troll goes onto an empty square; the verify_clear error if the way is blocked; IllegalMove without a dwarf next to the target; LineTooShort(dist, len) if the troll line is shorter than the distance; otherwise the troll has moved |
| Moves.TrollShoveOk | src/board/mod.rs:162-194 | the shove succeeds exactly when all of its conditions hold together |
| Moves.CaptureOver | src/board/mod.rs:217-225 | after the loop over some directions, exactly the dwarves next to the troll in those directions are gone, and the count is their number |
| Moves.TrollCapture | src/board/mod.rs:206-228 | IllegalMove exactly when there is no troll; otherwise the listed neighbouring dwarves are removed and counted, and nothing else changes |
| Moves.CapturedNeighbours | src/board/mod.rs:217-225 | only neighbouring dwarves are ever captured |
| Moves.CapturedBound | src/board/mod.rs:217-225 | at most eight dwarves are taken in one capture |
| Moves.CaptureCounts | src/board/mod.rs:206-228 | the dwarf count drops by the number captured, and no troll or Thudstone is touched |
| Moves.CaptureIgnoresRepeats | src/board/mod.rs:217-225 | naming a direction a second time takes nothing more |
| Moves.DwarfMove | src/board/mod.rs:238-250 | IllegalMove unless a dwarf goes onto an empty square; then the verify_clear result; on success the dwarf has moved |
| Moves.DwarfHurl | src/board/mod.rs:263-284 | IllegalMove unless a dwarf targets a troll; the verify_clear error if blocked; LineTooShort(dist, len) when the dwarf line is shorter than the distance; otherwise the dwarf replaces the troll |
| Moves.HurlNeighbour | src/board/mod.rs:263-284 | a dwarf beside a troll can always hurl onto it |
| Moves.TrollMoveCounts | src/board/mod.rs:132-148 | a troll move keeps every piece count and the Thudstone's square |
| Moves.TrollShoveCounts | src/board/mod.rs:162-194 | a shove keeps every piece count and the Thudstone's square |
| Moves.DwarfMoveCounts | src/board/mod.rs:238-250 | a dwarf move keeps every piece count and the Thudstone's square |
| Moves.HurlCounts | src/board/mod.rs:263-284 | a hurl removes exactly one troll and keeps the dwarves and the Thudstone |
| Available.DwarfScanPrefix | src/board/mod.rs:295-305 | a dwarf's scan of one ray lists a prefix of the ray |
| Available.TrollScanPrefix | src/board/mod.rs:317-325 | a troll's scan lists at most the allowed number of squares, all empty, and stops only at the limit, the ray's end or an occupied square |
| Available.DwarfScanRun | src/board/mod.rs:295-305 | the dwarf's scan is the run of empty squares, plus the troll behind it when the dwarf line supports that far |
| Available.TrollScanRun | src/board/mod.rs:317-325 | the troll's scan is the run of empty squares, cut at the line length |
| Available.DwarfMoves | src/board/mod.rs:291-306 | a square is listed exactly when one of the directions' dwarf scans lists it |
| Available.TrollMoves | src/board/mod.rs:315-327 | a square is listed exactly when one of the directions' troll scans lists it |
| Available.AvailableMoves | src/board/mod.rs:287-331 | nothing for a square without a dwarf or troll; otherwise exactly the squares of the piece's scans in the eight directions |
| Available.DwarfListedRoute | src/board/mod.rs:291-306 | what a dwarf lists is on a line from it with a clear way, and is empty or a troll within the dwarf line's reach |
| Available.DwarfRouteListed | src/board/mod.rs:291-306 | conversely, every such square is listed |
| Available.DwarfListsMoves | src/board/mod.rs:291-306 | an empty square is listed for a dwarf exactly when dwarf_move to it succeeds |
| Available.DwarfListsTrolls | src/board/mod.rs:291-306 | a troll square is listed exactly when it is on a clear line no farther than the dwarf line plus one |
| Available.DwarfListsNothingElse | src/board/mod.rs:291-306 | a dwarf lists only empty squares and trolls |
| Available.HurlsListed | src/board/mod.rs:263-306 | every hurl that succeeds is listed |
| Available.ListedOneTooFar | src/board/mod.rs:263-306 | a listed troll exactly one square beyond the dwarf line's support is refused by dwarf_hurl with LineTooShort |
| Available.HurlListedTooFar | src/board/mod.rs:263-306 | a concrete board on which a listed hurl is refused with LineTooShort(2, 1) |
| Available.TrollListedRoute | src/board/mod.rs:312-327 | what a troll lists is an empty square on a line from it, at distance 2 up to the troll line plus one, with every square after the first on the way empty |
| Available.TrollRouteListed | src/board/mod.rs:312-327 | conversely, every such square is listed |
| Available.TrollListsSquares | src/board/mod.rs:312-327 | the exact description of a troll's listed squares |
| Available.TrollListsNoStep | src/board/mod.rs:312-327 | the ordinary one-square troll move is never listed |
| Available.FreshDwarfMoves | src/board/mod.rs:291-306 | on the starting layout a dwarf has a listed move |
| Available.FreshTrollMoves | src/board/mod.rs:312-327 | on the starting layout a troll has a listed move (past the square next to it) |
| Available.Score | src/board/mod.rs:370-374 | the number of dwarves, and four times the number of trolls |
| Available.FreshScore | src/board/mod.rs:370-374 | the starting layout scores (32, 32) |
| Available.MovesTotal | src/board/mod.rs:341-351 | zero exactly when no listed square has a move |
| Available.TotalPositive | src/board/mod.rs:341-351 | a side's total is positive exactly when one of its pieces has a listed move |
| Available.Verdict | src/board/mod.rs:353-361 | the dwarves win on a higher score, the trolls on a higher score, a draw on equal ones |
| Available.Winner | src/board/mod.rs:340-365 | none exactly when both sides can move; otherwise the verdict on the score |
| Available.FreshNotOver | src/board/mod.rs:340-365 | the starting layout is not a finished game |
| Boards.Board.Default | src/board/mod.rs:19-23 | a fresh array holding the default board |
| Boards.Board.Fresh | src/board/mod.rs:29-69 | the loops of fresh build the starting layout |
| Boards.Board.Get | src/board/mod.rs:78-81 | the piece on the square |
| Boards.Board.Place | src/board/mod.rs:72-75 | the board afterwards is the old one with that square replaced |
| Boards.Board.Army | src/board/mod.rs:97-109 | the loop yields the army of the board value |
| Boards.Board.Adjacent | src/board/mod.rs:114-123 | the loop yields the neighbour list of the board value |
| Boards.Board.TrollMove | src/board/mod.rs:132-148 | result and new board as the troll move function says |
| Boards.Board.TrollShove | src/board/mod.rs:162-194 | result and new board as the shove function says |
| Boards.Board.TrollCapture | src/board/mod.rs:206-228 | IllegalMove with the board unchanged, or the number captured with the captured board |
| Boards.Board.DwarfMove | src/board/mod.rs:238-250 | result and new board as the dwarf move function says |
| Boards.Board.DwarfHurl | src/board/mod.rs:263-284 | result and new board as the hurl function says |
| Boards.Board.DwarfRayMoves | src/board/mod.rs:295-305 | the enumerated cast loop yields the dwarf's scan of that ray |
| Boards.Board.TrollRayMoves | src/board/mod.rs:317-325 | the cast loop after the first square, cut at the line length, yields the troll's scan |
| Boards.Board.AvailableMoves | src/board/mod.rs:287-331 | the loops yield the available moves of the board value |
| Boards.Board.MovesOf | src/board/mod.rs:341-351 | the summing loop yields the total number of listed moves of the army |
| Boards.Board.Winner | src/board/mod.rs:340-365 | the end-of-game test of the board value |
| Boards.Board.Score | src/board/mod.rs:370-374 | the score of the board value |
| Boards.Board.Cast | src/board/mod.rs:376-378 | a new cast at the start of the ray |
| Boards.Board.VerifyClear | src/board/mod.rs:380-396 | the cast loop yields verify_clear of the board value |
| Boards.Board.CountLine | src/board/mod.rs:398-411 | the cast loop yields count_line of the board value |
| Boards.RayCast.constructor | src/board/raycast.rs:10-16 | the cast starts with nothing yielded |
| Boards.RayCast.Next | src/board/raycast.rs:21-28 | yields the next ray square with its piece, or None once past the end, and stays there |
| Scenarios.TrollMoveTests | src/board/tests.rs:38-47 | trolls step to free neighbours, but not two squares and not onto the Thudstone |
| Scenarios.PlaceAll | src/board/tests.rs:55-57 | placing pieces one by one puts the piece on each listed square and changes nothing else |
| Scenarios.TrollShoveLongLine | src/board/tests.rs:49-61 | with three trolls added, the line of six shoves (8, 6) to (13, 6) |
| Scenarios.TrollShoveDiagonal | src/board/tests.rs:49-61 | with a troll added on (6, 5), a line of three shoves (8, 7) three squares up the diagonal |
| Scenarios.TrollShoveShortLine | src/board/tests.rs:49-61 | without help the line of three cannot shove five squares: LineTooShort(5, 3) |
| Scenarios.TrollShoveNoDwarf | src/board/tests.rs:49-61 | the shove to (12, 6) has line enough but no dwarf beside the target: IllegalMove |
| Scenarios.DwarfMoveColumn | src/board/tests.rs:63-73 | the dwarf on (6, 0) moves up to (6, 5) |
| Scenarios.DwarfMoveRising | src/board/tests.rs:63-73 | the dwarf on (6, 0) moves up the diagonal to (10, 4) |
| Scenarios.DwarfMoveFalling | src/board/tests.rs:63-73 | the dwarf on (4, 13) moves down the diagonal to (12, 5) |
| Scenarios.DwarfMoveBlocked | src/board/tests.rs:63-73 | the dwarf on (8, 0) is stopped by the troll on (8, 6) |
| Scenarios.DwarfMoveOccupied | src/board/tests.rs:63-73 | a dwarf cannot move onto another dwarf |
| Scenarios.DwarfHurlColumn | src/board/tests.rs:75-85 | a column of four dwarves hurls (6, 3) onto the troll on (6, 6) |
| Scenarios.DwarfHurlAntiDiagonal | src/board/tests.rs:75-85 | a line of three dwarves hurls (4, 9) onto the troll on (6, 7) |
| Phases.Turn | src/state.rs:33-39 | no player exactly when the game has ended; the trolls after a troll move |
| Phases.Score | src/state.rs:57-59 | the board's dwarves and four times its trolls |
| Phases.StartFacts | src/state.rs:22-27 | a new game: the dwarves to play, score (32, 32), no winner yet |
| Phases.ClearNeverRefuses | src/board/mod.rs:380-396 | verify_clear never reports BadAction |
| Phases.MovesNeverRefuse | src/board/mod.rs:132-250 | the board moves and the capture never report BadAction, so BadAction always comes from the phase |
| Phases.HurlNeverRefuses | src/board/mod.rs:263-284 | the hurl never reports BadAction |
| Phases.ShoveNeverRefuses | src/board/mod.rs:162-194 | the shove never reports BadAction |
| Phases.ActOutOfTurn | src/state.rs:70-115 | move_piece and attack report BadAction exactly outside the normal phase |
| Phases.CapOutOfTurn | src/state.rs:126-147 | troll_cap reports BadAction exactly outside the post-troll-move phase |
| Phases.ActFailureKeeps | src/state.rs:70-115 | a failed move or attack leaves board and phase as they were |
| Phases.CapFailureKeeps | src/state.rs:126-147 | a failed capture leaves the phase and every square as they were |
| Phases.MoveSucceeds | src/state.rs:70-87 | a dwarf's move hands the turn to the trolls; a troll's enters the capture phase without a shove; either way the piece has moved |
| Phases.AttackSucceeds | src/state.rs:98-115 | a hurl hands the turn to the trolls; a shove enters the capture phase owing a capture; either way the piece has moved |
| Phases.CapSucceeds | src/state.rs:126-147 | a successful capture hands the turn to the dwarves; after a shove it took at least one dwarf |
| Phases.ShoveOwesCapture | src/state.rs:130-134 | after a shove, a capture taking nobody is IllegalMove and the capture is still owed |
| Phases.CapAnyTroll | src/state.rs:126-147 | in the capture phase, any square holding a troll may capture |
| Phases.ActionsNeverEnd | src/state.rs:70-147 | no action ends the game by itself |
| Phases.EndedRefuses | src/state.rs:33-147 | once ended, every action is BadAction, nothing changes, and there is no player to move |
| Phases.WinnerLatches | src/state.rs:42-54 | winner keeps the board, caches a result in the phase, and asking again gives the same answer |
| Phases.WinnerCached | src/state.rs:44-45 | a cached result is returned whatever the board |
| Phases.WinnerFromBoard | src/state.rs:46-52 | before the end, the answer is the board's end-of-game test |
| Game.Thud.New | src/state.rs:22-27 | the starting layout with the dwarves to play |
| Game.Thud.Turn | src/state.rs:33-39 | whose turn the phase says it is |
| Game.Thud.Winner | src/state.rs:42-54 | the new state and the answer are those of the winner function |
| Game.Thud.Score | src/state.rs:57-59 | the score of the current board |
| Game.Thud.MovePiece | src/state.rs:70-87 | the new board, phase and result are those of the move function |
| Game.Thud.Attack | src/state.rs:98-115 | the new board, phase and result are those of the attack function |
| Game.Thud.TrollCap | src/state.rs:126-147 | the new board, phase and result are those of the capture function |

## Left out

- src/ffi.rs, the C interface, is not part of this model. Neither is the older single-file
  src/board.rs, which src/board/mod.rs replaces. `Piece::into_int` (src/piece.rs:27-37) is
  compiled only with the `ffi` feature; Pieces.IntoInt models it all the same.
- The `serialize` feature (serde) and the module wiring of src/lib.rs are left out.
- In src/lib.rs, `Obstacle` and `LineTooShort` carry no data, but src/board/mod.rs builds them
  with data: `Obstacle(x, y)` and `LineTooShort(dist, len)`. The model follows src/board/mod.rs.
- `usize` is modelled as `nat`, without overflow. The sum `x + y` at src/coord.rs:12 is
  computed before any bound test, so it overflows for inputs near `usize::MAX`. A debug build
  panics there; a release build wraps, and the test `x > 14` or `y > 14` still rejects the pair.
  Coords.CheckCoords and Coords.ZeroBased return InvalidPosition for every such input, which is
  the release-build result; the debug-build panic is not modelled. The later subtractions
  `15 - x + y` and `15 + x - y` are reached only once x and y are at most 14, so they cannot wrap.
- Coords.OneBased requires x, y >= 1: the subtraction `x - 1` at src/coord.rs:45 underflows on 0.
  A debug build panics there; a release build wraps to `usize::MAX`, which zero_based then rejects
  with InvalidPosition. Neither outcome for 0 is modelled.
- Coords.FromPair requires a board square: the `unwrap` of `From<(usize, usize)>` panics off the
  board, and that panic is not modelled.
- `Direction::modify`, `from_route`, `opposite` and `all` are called from src/board/mod.rs and
  src/board/raycast.rs, but their definitions are not part of the directions file as shipped.
  They are modelled from those uses:
  - `modify` steps one square and fails with MathError off the board;
  - `from_route` is the direction of travel, with MathError for equal or unaligned squares;
  - `all` lists the compass in declaration order.
- Directions.Obtain is modelled as written:
  - it returns `Down` for equal squares;
  - on a falling diagonal it returns the opposite of the direction of travel (UpLeft when the
    path goes down and to the right).
  Directions.ObtainVersusFromRoute states this. The board uses `from_route` throughout, not
  `obtain`.
- Boards.Board.Fresh: the four arm closures of `fresh` become the function Grids.Arm(k, n) over
  the arm index. The loops keep their order.
- The comment on the `squares` field at src/board/mod.rs:21 says the indexing is 1-based, but all
  indexing in the code is zero-based. The model follows the code.
- Boards.Board.AvailableMoves: the inner loops over one ray are helper methods,
  DwarfRayMoves and TrollRayMoves. The counting loops of `winner` are the helper method MovesOf.
- Available.AvailableMoves is not claimed to list exactly the legal moves, because it does not.
  The lemmas state how it differs from the move primitives:
  - Available.ListedOneTooFar and Available.HurlListedTooFar: a dwarf lists a troll one square
    farther than `dwarf_hurl` accepts;
  - Available.TrollListsNoStep: a troll never lists the one-square move;
  - Available.TrollListsSquares: a troll skips over the first square of each ray whatever
    stands on it.
- Phases.CapAnyTroll: `troll_cap` does not check that the capturing troll is the one that just
  moved. The model keeps this and states it.
- Boards.Board.Winner and Game.Thud.Turn are thin delegations, each stated as equal to its
  function.
- Nothing in the core does I/O, uses a clock or randomness, or runs concurrently, so the model
  has no parameters for any of them.

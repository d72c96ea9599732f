/** The turn machine of a game of Thud as functions on a game value: a grid and a phase. The
    phase is Nominal(player) before a player's first action of a turn, PostTrollMove(shoved)
    between a troll's move or shove and its capture, and GameEnded(result) once `winner` has found
    the game over. */
module Phases {
  import opened Types
  import opened Coords
  import opened Directions
  import opened Grids
  import opened Players
  import Pieces
  import Lines
  import Moves
  import Available
  import Boards

  datatype GameState = Nominal(player: Player) | PostTrollMove(shoved: bool) | GameEnded(result: EndState)

  /** A game as a value: the grid of its board and its phase. */
  datatype Snapshot = Snapshot(grid: Grid, state: GameState)

  /** Two grids that hold the same piece on every square of the board. */
  ghost predicate SameSquares(g: Grid, h: Grid)
  {
    forall e: Coord :: Grids.At(g, e) == Grids.At(h, e)
  }

  /** What `Thud::new` builds: the starting layout, the dwarves to play. */
  function Start(): Snapshot
  {
    Snapshot(FreshGrid(), Nominal(Dwarf))
  }

  /** `turn`: whose turn it is; nobody's once the game has ended. */
  function Turn(s: GameState): (p: Option<Player>)
    ensures p.None? <==> s.GameEnded?
    ensures s.PostTrollMove? ==> p == Some(Troll)
  {
    match s
    case Nominal(q) => Some(q)
    case PostTrollMove(_) => Some(Troll)
    case GameEnded(_) => None
  }

  /** The game value after a board action that may fail, with the phase that follows success. */
  function Step(v: Snapshot, r: Result<Grid, ThudError>, next: GameState): (Snapshot, Result<Unit, ThudError>)
  {
    match r
    case Err(e) => (v, Err(e))
    case Ok(h) => (Snapshot(h, next), Ok(()))
  }

  /** `move_piece`: a dwarf move ends the dwarf's turn; a troll move leaves the troll to capture.
      Outside those two phases the action is refused. */
  function MovePiece(v: Snapshot, src: Coord, target: Coord): (Snapshot, Result<Unit, ThudError>)
  {
    match v.state
    case Nominal(Dwarf) => Step(v, Moves.DwarfMove(v.grid, src, target), Nominal(Troll))
    case Nominal(Troll) => Step(v, Moves.TrollMove(v.grid, src, target), PostTrollMove(false))
    case _ => (v, Err(BadAction))
  }

  /** `attack`: a hurl ends the dwarf's turn; a shove leaves the troll to capture, and marks that
      it must. Outside those two phases the action is refused. */
  function Attack(v: Snapshot, src: Coord, target: Coord): (Snapshot, Result<Unit, ThudError>)
  {
    match v.state
    case Nominal(Dwarf) => Step(v, Moves.DwarfHurl(v.grid, src, target), Nominal(Troll))
    case Nominal(Troll) => Step(v, Moves.TrollShove(v.grid, src, target), PostTrollMove(true))
    case _ => (v, Err(BadAction))
  }

  /** `troll_cap`: the capture after a troll's move or shove, which ends the troll's turn; after
      a shove at least one dwarf must be taken. The capture is made on whatever board results,
      so a zero-capture attempt after a shove keeps that (unchanged) board. */
  function TrollCap(v: Snapshot, troll: Coord, targets: seq<Direction>): (Snapshot, Result<Unit, ThudError>)
  {
    match v.state
    case PostTrollMove(shoved) =>
      (match Moves.TrollCapture(v.grid, troll, targets)
       case Err(e) => (v, Err(e))
       case Ok((h, captured)) =>
         if shoved && captured == 0 then (Snapshot(h, v.state), Err(IllegalMove))
         else (Snapshot(h, Nominal(Dwarf)), Ok(())))
    case _ => (v, Err(BadAction))
  }

  /** `winner`: the cached result once the game has ended; otherwise the board's verdict, which
      ends the game when there is one. */
  function Winner(v: Snapshot): (Snapshot, Option<EndState>)
  {
    match v.state
    case GameEnded(p) => (v, Some(p))
    case _ =>
      match Available.Winner(v.grid)
      case Some(p) => (Snapshot(v.grid, GameEnded(p)), Some(p))
      case None => (v, None)
  }

  /** `score`: the board's score. */
  function Score(v: Snapshot): (s: (nat, nat))
    ensures s == (Count(v.grid, Pieces.Dwarf), 4 * Count(v.grid, Pieces.Troll))
  {
    Available.Score(v.grid)
  }

  // ---------------------------------------------------------------------------------------------
  // The phases

  /** A new game: the dwarves to play, 32 points each, and both sides able to move. */
  lemma StartFacts()
    ensures Turn(Start().state) == Some(Dwarf)
    ensures Score(Start()) == (32, 32)
    ensures Winner(Start()) == (Start(), None)
  {
    Available.FreshScore(FreshGrid());
    Available.FreshNotOver(FreshGrid());
  }

  /** `verify_clear` fails only with MathError or an obstacle. */
  lemma ClearNeverRefuses(g: Grid, src: Coord, dst: Coord)
    ensures Lines.VerifyClear(g, src, dst) != Err(BadAction)
  {
    var r := Lines.VerifyClear(g, src, dst);
    if FromRoute(src, dst).Ok? && r.Err? {
      var b := Lines.Between(src, dst);
      var k :| 0 <= k < |b| && Grids.At(g, b[k]) != Pieces.Empty && r.error == Obstacle(b[k].x, b[k].y);
    }
  }

  /** The board moves never answer BadAction; only the phase checks do. */
  lemma MovesNeverRefuse(g: Grid, src: Coord, target: Coord, targets: seq<Direction>)
    ensures Moves.DwarfMove(g, src, target) != Err(BadAction)
    ensures Moves.TrollMove(g, src, target) != Err(BadAction)
    ensures Moves.TrollCapture(g, src, targets) != Err(BadAction)
  {
    ClearNeverRefuses(g, src, target);
  }

  /** Nor does a hurl ... */
  lemma HurlNeverRefuses(g: Grid, src: Coord, target: Coord)
    ensures Moves.DwarfHurl(g, src, target) != Err(BadAction)
  {
    if Grids.At(g, src) == Pieces.Dwarf && Grids.At(g, target) == Pieces.Troll {
      ClearNeverRefuses(g, src, target);
    }
  }

  /** ... or a shove. */
  lemma ShoveNeverRefuses(g: Grid, src: Coord, target: Coord)
    ensures Moves.TrollShove(g, src, target) != Err(BadAction)
  {
    if Grids.At(g, src) == Pieces.Troll && Grids.At(g, target) == Pieces.Empty {
      ClearNeverRefuses(g, src, target);
    }
  }

  /** A hurl that succeeds has moved the dwarf onto the troll's square. */
  lemma HurlMoved(g: Grid, src: Coord, target: Coord)
    requires Moves.DwarfHurl(g, src, target).Ok?
    ensures Moves.Moved(g, Moves.DwarfHurl(g, src, target).value, src, target, Pieces.Dwarf)
  {
    assert Grids.At(g, src) == Pieces.Dwarf && Grids.At(g, target) == Pieces.Troll;
    assert Lines.VerifyClear(g, src, target).Ok?;
  }

  /** A shove that succeeds has moved the troll onto the target. */
  lemma ShoveMoved(g: Grid, src: Coord, target: Coord)
    requires Moves.TrollShove(g, src, target).Ok?
    ensures Moves.Moved(g, Moves.TrollShove(g, src, target).value, src, target, Pieces.Troll)
  {
    assert Grids.At(g, src) == Pieces.Troll && Grids.At(g, target) == Pieces.Empty;
    assert Lines.VerifyClear(g, src, target).Ok?;
    assert Moves.DwarfNextTo(g, target);
  }

  /** A move or an attack is refused exactly outside a player's first action of a turn. */
  lemma ActOutOfTurn(v: Snapshot, src: Coord, target: Coord)
    ensures MovePiece(v, src, target).1 == Err(BadAction) <==> !v.state.Nominal?
    ensures Attack(v, src, target).1 == Err(BadAction) <==> !v.state.Nominal?
  {
    MovesNeverRefuse(v.grid, src, target, []);
    HurlNeverRefuses(v.grid, src, target);
    ShoveNeverRefuses(v.grid, src, target);
  }

  /** A capture is refused exactly outside the troll's second action. */
  lemma CapOutOfTurn(v: Snapshot, troll: Coord, targets: seq<Direction>)
    ensures TrollCap(v, troll, targets).1 == Err(BadAction) <==> !v.state.PostTrollMove?
  {
    MovesNeverRefuse(v.grid, troll, troll, targets);
  }

  /** A failed move or attack leaves the game exactly as it was. */
  lemma ActFailureKeeps(v: Snapshot, src: Coord, target: Coord)
    ensures MovePiece(v, src, target).1.Err? ==> MovePiece(v, src, target).0 == v
    ensures Attack(v, src, target).1.Err? ==> Attack(v, src, target).0 == v
  {
  }

  /** A failed capture leaves the phase as it was and every square as it was. */
  lemma CapFailureKeeps(v: Snapshot, troll: Coord, targets: seq<Direction>)
    ensures var (w, r) := TrollCap(v, troll, targets);
            r.Err? ==> w.state == v.state && SameSquares(w.grid, v.grid)
  {
    var (w, r) := TrollCap(v, troll, targets);
    if r.Err? && v.state.PostTrollMove? && Moves.TrollCapture(v.grid, troll, targets).Ok? {
      assert Moves.Captured(v.grid, troll, targets) == {};
    }
  }

  /** A successful move: a dwarf's hands the turn to the trolls, a troll's keeps it for the
      capture; in both the piece has gone from src to target. */
  lemma MoveSucceeds(v: Snapshot, src: Coord, target: Coord)
    requires MovePiece(v, src, target).1.Ok?
    ensures var w := MovePiece(v, src, target).0;
            Turn(w.state) == Some(Troll) &&
            (v.state == Nominal(Dwarf) ==> w.state == Nominal(Troll) && Moves.Moved(v.grid, w.grid, src, target, Pieces.Dwarf)) &&
            (v.state == Nominal(Troll) ==> w.state == PostTrollMove(false) && Moves.Moved(v.grid, w.grid, src, target, Pieces.Troll))
  {
  }

  /** A successful attack: a hurl hands the turn to the trolls; a shove keeps it, with a capture
      now owed. */
  lemma AttackSucceeds(v: Snapshot, src: Coord, target: Coord)
    requires Attack(v, src, target).1.Ok?
    ensures var w := Attack(v, src, target).0;
            Turn(w.state) == Some(Troll) &&
            (v.state == Nominal(Dwarf) ==> w.state == Nominal(Troll) && Moves.Moved(v.grid, w.grid, src, target, Pieces.Dwarf)) &&
            (v.state == Nominal(Troll) ==> w.state == PostTrollMove(true) && Moves.Moved(v.grid, w.grid, src, target, Pieces.Troll))
  {
    if v.state == Nominal(Dwarf) {
      HurlMoved(v.grid, src, target);
    } else {
      ShoveMoved(v.grid, src, target);
    }
  }

  /** A successful capture hands the turn to the dwarves; after a shove it took at least one
      dwarf. */
  lemma CapSucceeds(v: Snapshot, troll: Coord, targets: seq<Direction>)
    requires TrollCap(v, troll, targets).1.Ok?
    ensures var w := TrollCap(v, troll, targets).0;
            w.state == Nominal(Dwarf) && Turn(w.state) == Some(Dwarf) &&
            (v.state == PostTrollMove(true) ==> Count(w.grid, Pieces.Dwarf) < Count(v.grid, Pieces.Dwarf))
  {
    Moves.CaptureCounts(v.grid, troll, targets);
  }

  /** After a shove, a capture that takes no dwarf is refused with IllegalMove and the troll
      must try again. */
  lemma ShoveOwesCapture(v: Snapshot, troll: Coord, targets: seq<Direction>)
    requires v.state == PostTrollMove(true)
    requires Pieces.Troll == Grids.At(v.grid, troll) && Moves.Captured(v.grid, troll, targets) == {}
    ensures TrollCap(v, troll, targets).1 == Err(IllegalMove)
    ensures TrollCap(v, troll, targets).0.state == PostTrollMove(true)
  {
  }

  /** The capture is not tied to the troll that moved: after a move, any square holding a troll
      may capture, and one without a troll cannot. */
  lemma CapAnyTroll(v: Snapshot, troll: Coord, targets: seq<Direction>)
    requires v.state == PostTrollMove(false)
    ensures TrollCap(v, troll, targets).1.Ok? <==> Grids.At(v.grid, troll) == Pieces.Troll
  {
  }

  /** The actions never end the game: only `winner` does. */
  lemma ActionsNeverEnd(v: Snapshot, src: Coord, target: Coord, targets: seq<Direction>)
    requires !v.state.GameEnded?
    ensures !MovePiece(v, src, target).0.state.GameEnded?
    ensures !Attack(v, src, target).0.state.GameEnded?
    ensures !TrollCap(v, src, targets).0.state.GameEnded?
  {
  }

  /** Once the game has ended every action is refused and changes nothing. */
  lemma EndedRefuses(v: Snapshot, src: Coord, target: Coord, targets: seq<Direction>)
    requires v.state.GameEnded?
    ensures MovePiece(v, src, target) == (v, Err(BadAction))
    ensures Attack(v, src, target) == (v, Err(BadAction))
    ensures TrollCap(v, src, targets) == (v, Err(BadAction))
    ensures Turn(v.state) == None
  {
  }

  /** `winner` never changes the board, latches the first result it finds, and asking again
      gives the same answer and changes nothing more. */
  lemma WinnerLatches(v: Snapshot)
    ensures Winner(v).0.grid == v.grid
    ensures Winner(v).1.Some? ==> Winner(v).0.state == GameEnded(Winner(v).1.value)
    ensures Winner(v).1.None? ==> Winner(v).0 == v
    ensures Winner(Winner(v).0) == (Winner(v).0, Winner(v).1)
  {
  }

  /** Once ended, `winner` answers from the cache: the board is not consulted. */
  lemma WinnerCached(v: Snapshot, g: Grid)
    requires v.state.GameEnded?
    ensures Winner(v).1 == Winner(Snapshot(g, v.state)).1 == Some(v.state.result)
  {
  }

  /** Before the game has ended, `winner` gives the board's verdict: nothing while both sides can
      move, the score's verdict otherwise. */
  lemma WinnerFromBoard(v: Snapshot)
    requires !v.state.GameEnded?
    ensures Winner(v).1.None? <==> Available.CanMove(v.grid, Pieces.Dwarf) && Available.CanMove(v.grid, Pieces.Troll)
    ensures Winner(v).1.Some? ==> Winner(v).1.value == Available.Verdict(Available.Score(v.grid))
  {
  }
}

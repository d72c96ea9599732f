/** `Thud`, the object the players drive: a board and a phase, each action proved to do what the
    function of the same name in Phases says. */
module Game {
  import opened Types
  import opened Coords
  import opened Directions
  import opened Players
  import Boards
  import opened Phases

  /** `Thud`: the board and the phase. */
  class Thud {
    const board: Boards.Board
    var state: GameState

    predicate Valid()
    {
      board.Valid()
    }

    /** The game as a value. */
    function View(): Snapshot
      requires Valid()
      reads this, board.squares
    {
      Snapshot(board.FullRaw(), state)
    }

    /** `new`: the starting layout, the dwarves to play. */
    constructor New()
      ensures Valid() && fresh(board) && fresh(board.squares)
      ensures View() == Start()
    {
      board := new Boards.Board.Fresh();
      state := Nominal(Dwarf);
    }

    /** `turn`: whose turn it is. */
    method Turn() returns (p: Option<Player>)
      ensures p == Phases.Turn(state)
    {
      match state
      case Nominal(q) => p := Some(q);
      case PostTrollMove(_) => p := Some(Troll);
      case GameEnded(_) => p := None;
    }

    /** `winner`: the cached result, or the board's, which is then cached. */
    method Winner() returns (r: Option<EndState>)
      requires Valid()
      modifies this
      ensures Valid()
      ensures (View(), r) == Phases.Winner(old(View()))
    {
      match state
      case GameEnded(p) =>
        r := Some(p);
      case _ =>
        var w := board.Winner();
        match w
        case Some(p) =>
          state := GameEnded(p);
          r := Some(p);
        case None =>
          r := None;
    }

    /** `score`: the board's score. */
    method Score() returns (s: (nat, nat))
      requires Valid()
      ensures s == Phases.Score(View())
    {
      s := board.Score();
    }

    /** `move_piece`: the board move of the player to act, then the next phase. */
    method MovePiece(src: Coord, target: Coord) returns (r: Result<Unit, ThudError>)
      requires Valid()
      modifies this, board.squares
      ensures Valid()
      ensures (View(), r) == Phases.MovePiece(old(View()), src, target)
    {
      match state
      case Nominal(Dwarf) =>
        r := board.DwarfMove(src, target);
        if r.Err? {
          return;
        }
        state := Nominal(Troll);
      case Nominal(Troll) =>
        r := board.TrollMove(src, target);
        if r.Err? {
          return;
        }
        state := PostTrollMove(false);
      case _ =>
        r := Err(BadAction);
    }

    /** `attack`: the board attack of the player to act, then the next phase. */
    method Attack(src: Coord, target: Coord) returns (r: Result<Unit, ThudError>)
      requires Valid()
      modifies this, board.squares
      ensures Valid()
      ensures (View(), r) == Phases.Attack(old(View()), src, target)
    {
      match state
      case Nominal(Dwarf) =>
        r := board.DwarfHurl(src, target);
        if r.Err? {
          return;
        }
        state := Nominal(Troll);
      case Nominal(Troll) =>
        r := board.TrollShove(src, target);
        if r.Err? {
          return;
        }
        state := PostTrollMove(true);
      case _ =>
        r := Err(BadAction);
    }

    /** `troll_cap`: the capture, then the dwarves' turn; after a shove, IllegalMove when nothing
        was taken. */
    method TrollCap(troll: Coord, targets: seq<Direction>) returns (r: Result<Unit, ThudError>)
      requires Valid()
      modifies this, board.squares
      ensures Valid()
      ensures (View(), r) == Phases.TrollCap(old(View()), troll, targets)
    {
      match state
      case PostTrollMove(true) =>
        var captured := board.TrollCapture(troll, targets);
        if captured.Err? {
          return Err(captured.error);
        }
        if captured.value == 0 {
          return Err(IllegalMove);
        }
        state := Nominal(Dwarf);
        r := Ok(());
      case PostTrollMove(false) =>
        var captured := board.TrollCapture(troll, targets);
        if captured.Err? {
          return Err(captured.error);
        }
        state := Nominal(Dwarf);
        r := Ok(());
      case _ =>
        r := Err(BadAction);
    }
  }
}

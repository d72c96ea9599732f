/** The enums of the crate root. The players live in a module of their own because their
    constructor names coincide with those of `Piece`. */
module Players {

  /** One of the two Thud players. */
  datatype Player = Dwarf | Troll

  /** How a game that has ended was decided. */
  datatype EndState = Won(winner: Player) | Draw
}

/** The error values the rules report, and the Option/Result wrappers used for fallible results. */
module Types {

  /** Errors reported by the engine. `Obstacle` carries the (zero-based) square of the first
      blocking piece, `LineTooShort` the distance asked for and the supporting line available. */
  datatype ThudError =
    | InvalidPosition
    | IllegalMove
    | Obstacle(x: nat, y: nat)
    | LineTooShort(dist: nat, len: nat)
    | MathError
    | BadAction

  datatype Option<+T> = None | Some(value: T)

  datatype Result<+T, +E> = Ok(value: T) | Err(error: E)

  /** The success value of a board action that returns nothing. */
  type Unit = ()
}

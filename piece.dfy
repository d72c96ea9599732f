/** The occupant of a square. Empty is an ordinary value, so every square holds exactly one Piece. */
module Pieces {

  datatype Piece = Dwarf | Troll | Thudstone | Empty

  /** `Default` of a Piece: an empty square. */
  function Default(): (p: Piece)
    ensures p.Empty?
  {
    Empty
  }

  /** The flat integer encoding of a piece, `into_int`, which the source compiles only with its `ffi` feature. */
  function IntoInt(p: Piece): (n: nat)
    ensures n <= 3
    ensures n == 0 <==> p.Empty?
    ensures p.Dwarf? ==> n == 1
    ensures p.Troll? ==> n == 2
    ensures p.Thudstone? ==> n == 3
  {
    match p
    case Empty => 0
    case Dwarf => 1
    case Troll => 2
    case Thudstone => 3
  }

  /** Distinct pieces have distinct codes, and every code 0..3 is used. */
  lemma IntoIntBijective(p: Piece, q: Piece, n: nat)
    ensures IntoInt(p) == IntoInt(q) ==> p == q
    ensures n <= 3 ==> exists r: Piece :: IntoInt(r) == n
  {
    if n == 0 { assert IntoInt(Empty) == 0; }
    else if n == 1 { assert IntoInt(Dwarf) == 1; }
    else if n == 2 { assert IntoInt(Troll) == 2; }
    else if n == 3 { assert IntoInt(Thudstone) == 3; }
  }
}

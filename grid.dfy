/** The value-level view of a board: the 15x15 grid of pieces that `full_raw` returns, the
    squares holding a given piece (`army`), and the starting layout of `fresh`. */
module Grids {
  import opened Types
  import opened Coords
  import opened Pieces

  predicate IsGrid(g: seq<seq<Piece>>)
  {
    |g| == 15 && forall i | 0 <= i < 15 :: |g[i]| == 15
  }

  /** A 15x15 grid indexed [x][y], zero-based. Squares outside the region are stored but never
      addressed, since every access goes through a `Coord`. */
  type Grid = g: seq<seq<Piece>> | IsGrid(g) witness seq(15, _ => seq(15, _ => Empty))

  /** `Board::default()`: every square holds `Piece::default()`. */
  function EmptyGrid(): (g: Grid)
    ensures forall i, j | 0 <= i < 15 && 0 <= j < 15 :: g[i][j] == Default()
  {
    seq(15, _ => seq(15, _ => Default()))
  }

  /** `get`: the piece on a square. */
  function At(g: Grid, c: Coord): Piece
  {
    g[c.x][c.y]
  }

  /** `place` on the value level: the grid with one square overwritten. */
  function Placed(g: Grid, c: Coord, p: Piece): (r: Grid)
    ensures At(r, c) == p
    ensures forall e: Coord :: e != c ==> At(r, e) == At(g, e)
    ensures forall i, j | 0 <= i < 15 && 0 <= j < 15 && (i != c.x || j != c.y) :: r[i][j] == g[i][j]
  {
    g[c.x := g[c.x][c.y := p]]
  }

  /** The squares of the board holding p, as a set. */
  function Cells(g: Grid, p: Piece): (s: set<Coord>)
    ensures forall c: Coord :: c in s <==> At(g, c) == p
  {
    set x: nat, y: nat | x < 15 && y < 15 && InRegion(x, y) && g[x][y] == p :: Pair(x, y)
  }

  /** Number of squares of the board holding p. */
  function Count(g: Grid, p: Piece): nat
  {
    |Cells(g, p)|
  }

  /** The squares holding p after overwriting c with q. */
  function CellsPlaced(g: Grid, c: Coord, q: Piece, p: Piece): set<Coord>
  {
    if q == p then Cells(g, p) + {c} else Cells(g, p) - {c}
  }

  lemma CellsPlacedIn(g: Grid, c: Coord, q: Piece, p: Piece)
    ensures forall e | e in Cells(Placed(g, c, q), p) :: e in CellsPlaced(g, c, q, p)
  {
    var h := Placed(g, c, q);
    forall e | e in Cells(h, p) ensures e in CellsPlaced(g, c, q, p) {
      if e != c { assert At(h, e) == At(g, e); }
    }
  }

  lemma CellsPlacedOut(g: Grid, c: Coord, q: Piece, p: Piece)
    ensures forall e | e in CellsPlaced(g, c, q, p) :: e in Cells(Placed(g, c, q), p)
  {
    var h := Placed(g, c, q);
    forall e | e in CellsPlaced(g, c, q, p) ensures e in Cells(h, p) {
      if e != c { assert At(h, e) == At(g, e); }
    }
  }

  /** Overwriting one square moves exactly that square between the counts. */
  lemma CountPlaced(g: Grid, c: Coord, q: Piece, p: Piece)
    ensures Cells(Placed(g, c, q), p) == CellsPlaced(g, c, q, p)
    ensures Count(Placed(g, c, q), p) ==
            Count(g, p) - (if At(g, c) == p then 1 else 0) + (if q == p then 1 else 0)
  {
    CellsPlacedIn(g, c, q, p);
    CellsPlacedOut(g, c, q, p);
  }

  /** Strict row-major order: x first, then y. It implies the list has no duplicates. */
  predicate RowMajor(s: seq<Pair>)
  {
    forall i, j :: 0 <= i < j < |s| ==> s[i].x < s[j].x || (s[i].x == s[j].x && s[i].y < s[j].y)
  }

  /** The inner loop of `army`: the squares (x, 0) .. (x, y - 1) that hold p and pass `zero_based`. */
  function RowArmy(g: Grid, p: Piece, x: nat, y: nat): seq<Coord>
    requires x < 15 && y <= 15
  {
    if y == 0 then []
    else
      var rest := RowArmy(g, p, x, y - 1);
      if g[x][y - 1] == p && ZeroBased(x, y - 1).Ok? then rest + [ZeroBased(x, y - 1).value] else rest
  }

  /** The inner loop collects, in increasing y, exactly the squares of row x before y holding p. */
  lemma {:induction false} RowArmyShape(g: Grid, p: Piece, x: nat, y: nat)
    requires x < 15 && y <= 15
    ensures forall k :: 0 <= k < |RowArmy(g, p, x, y)| ==> RowArmy(g, p, x, y)[k].x == x && RowArmy(g, p, x, y)[k].y < y
    ensures forall i, j :: 0 <= i < j < |RowArmy(g, p, x, y)| ==> RowArmy(g, p, x, y)[i].y < RowArmy(g, p, x, y)[j].y
    ensures forall c: Coord :: c in RowArmy(g, p, x, y) <==> c.x == x && c.y < y && At(g, c) == p
  {
    if y > 0 {
      RowArmyShape(g, p, x, y - 1);
    }
  }

  /** The outer loop of `army`: all rows before x. */
  function ArmyBefore(g: Grid, p: Piece, x: nat): seq<Coord>
    requires x <= 15
  {
    if x == 0 then [] else ArmyBefore(g, p, x - 1) + RowArmy(g, p, x - 1, 15)
  }

  /** The outer loop collects, in row-major order, exactly the squares of the rows before x
      holding p. */
  lemma {:induction false} ArmyBeforeShape(g: Grid, p: Piece, x: nat)
    requires x <= 15
    ensures forall k :: 0 <= k < |ArmyBefore(g, p, x)| ==> ArmyBefore(g, p, x)[k].x < x
    ensures RowMajor(ArmyBefore(g, p, x))
    ensures forall c: Coord :: c in ArmyBefore(g, p, x) <==> c.x < x && At(g, c) == p
  {
    if x > 0 {
      var rest: seq<Coord> := ArmyBefore(g, p, x - 1);
      var row: seq<Coord> := RowArmy(g, p, x - 1, 15);
      ArmyBeforeShape(g, p, x - 1);
      RowArmyShape(g, p, x - 1, 15);
      assert forall i, j :: 0 <= i < |rest| <= j < |rest| + |row| ==> (rest + row)[i].x < (rest + row)[j].x;
    }
  }

  /** `army`: the squares holding p, in the order the two nested loops visit them. */
  function Army(g: Grid, p: Piece): seq<Coord>
  {
    ArmyBefore(g, p, 15)
  }

  /** A duplicate-free list has as many elements as its set. */
  lemma {:induction false} DistinctCard(s: seq<Pair>)
    requires RowMajor(s)
    ensures |set c | c in s| == |s|
  {
    if s != [] {
      var init := s[..|s| - 1];
      var last := s[|s| - 1];
      LastIsNew(s);
      DistinctCard(init);
      SetOfSnoc(init, last);
      assert init + [last] == s;
    }
  }

  /** The last element of a row-major list is not among those before it, which are row-major too. */
  lemma LastIsNew(s: seq<Pair>)
    requires RowMajor(s) && s != []
    ensures RowMajor(s[..|s| - 1]) && s[|s| - 1] !in s[..|s| - 1]
  {
    var init := s[..|s| - 1];
    forall i | 0 <= i < |init| ensures init[i] != s[|s| - 1] {
      assert s[i] == init[i];
    }
  }

  /** The set of a list with one more element. */
  lemma SetOfSnoc(s: seq<Pair>, e: Pair)
    ensures (set c | c in s + [e]) == (set c | c in s) + {e}
  {
  }

  /** `army` lists exactly the squares holding p, each once, in row-major order. */
  lemma ArmyExact(g: Grid, p: Piece)
    ensures forall c: Coord :: c in Army(g, p) <==> At(g, c) == p
    ensures RowMajor(Army(g, p))
    ensures |Army(g, p)| == Count(g, p)
  {
    var a := Army(g, p);
    ArmyBeforeShape(g, p, 15);
    DistinctCard(a);
    assert (set c | c in a) == Cells(g, p);
  }

  // ---------------------------------------------------------------------------------------------
  // The starting layout

  /** The 3x3 block around the centre where the trolls start. */
  predicate TrollBlock(x: int, y: int)
  {
    6 <= x <= 8 && 6 <= y <= 8
  }

  /** The four dwarf arm formulas of `fresh`, arm k applied to the seed n = 0 .. 5. */
  function Arm(k: nat, n: nat): (c: Coord)
    requires k < 4 && n <= 5
    ensures OnArm(k, c.x, c.y)
  {
    match k
    case 0 => Pair(n, 5 - n)
    case 1 => Pair(n + 9, n)
    case 2 => Pair(n, n + 9)
    case 3 => Pair(n + 9, 14 - n)
  }

  /** Square (x, y) is produced by arm k for some seed 0 .. 5. */
  predicate OnArm(k: nat, x: int, y: int)
  {
    match k
    case 0 => x + y == 5 && x <= 5
    case 1 => x == y + 9 && y <= 5
    case 2 => y == x + 9 && x <= 5
    case 3 => x + y == 23 && x >= 9
    case _ => false
  }

  /** The seed from which arm k produces the square c. */
  function ArmSeed(k: nat, c: Pair): nat
  {
    if k == 1 then c.y else if k == 3 && c.x >= 9 then c.x - 9 else c.x
  }

  /** Every square of an arm comes from its seed. */
  lemma ArmSeedExact(k: nat, c: Coord)
    requires k < 4 && OnArm(k, c.x, c.y)
    ensures ArmSeed(k, c) <= 5 && Arm(k, ArmSeed(k, c)) == c
    ensures forall n | 0 <= n <= 5 && Arm(k, n) == c :: n == ArmSeed(k, c)
  {
  }

  /** The eight extra dwarves flanking the middle of each edge, in placement order. */
  const Extras: seq<Coord> := [Pair(0, 6), Pair(0, 8), Pair(14, 6), Pair(14, 8), Pair(6, 0), Pair(8, 0), Pair(6, 14), Pair(8, 14)]

  predicate ExtraSquare(x: int, y: int)
  {
    ((x == 0 || x == 14) && (y == 6 || y == 8)) || ((y == 0 || y == 14) && (x == 6 || x == 8))
  }

  lemma ExtrasExact()
    ensures forall c: Coord :: c in Extras <==> ExtraSquare(c.x, c.y)
  {
  }

  /** The squares on which `fresh` puts a dwarf. */
  predicate DwarfStart(x: int, y: int)
  {
    OnArm(0, x, y) || OnArm(1, x, y) || OnArm(2, x, y) || OnArm(3, x, y) || ExtraSquare(x, y)
  }

  /** What `fresh` leaves on square (x, y): the Thudstone, placed last, wins the centre; the
      dwarf squares and the troll block do not overlap, so their order does not matter. */
  function FreshSquare(x: nat, y: nat): Piece
  {
    if x == 7 && y == 7 then Thudstone
    else if DwarfStart(x, y) then Dwarf
    else if TrollBlock(x, y) then Troll
    else Empty
  }

  /** Every square of g holds what `fresh` puts there. */
  ghost predicate IsFresh(g: Grid)
  {
    forall i, j | 0 <= i < 15 && 0 <= j < 15 :: g[i][j] == FreshSquare(i, j)
  }

  /** The grid that `fresh` builds. */
  function FreshGrid(): (g: Grid)
    ensures IsFresh(g)
  {
    seq(15, (i: int) requires 0 <= i < 15 => seq(15, (j: int) requires 0 <= j < 15 => FreshSquare(i, j)))
  }

  /** A square of a fresh grid, by its coordinates. */
  lemma FreshSquares(g: Grid, x: nat, y: nat)
    requires IsFresh(g) && InRegion(x, y)
    ensures At(g, Pair(x, y)) == FreshSquare(x, y)
  {
  }

  /** The squares checked by the layout tests. */
  lemma FreshSpots(g: Grid)
    requires IsFresh(g)
    ensures At(g, Center) == Thudstone
    ensures At(g, Pair(8, 7)) == Troll && At(g, Pair(8, 8)) == Troll
    ensures At(g, Pair(6, 6)) == Troll && At(g, Pair(0, 5)) == Dwarf
  {
    assert g[7][7] == FreshSquare(7, 7) && g[8][7] == FreshSquare(8, 7) && g[8][8] == FreshSquare(8, 8);
    assert g[6][6] == FreshSquare(6, 6) && g[0][5] == FreshSquare(0, 5);
  }

  /** The troll squares of `fresh`. */
  function TrollSet(): set<Coord>
  {
    {Pair(6, 6), Pair(6, 7), Pair(6, 8), Pair(7, 6), Pair(7, 8), Pair(8, 6), Pair(8, 7), Pair(8, 8)}
  }

  lemma FreshTrollCellsIn(g: Grid)
    requires IsFresh(g)
    ensures forall c | c in Cells(g, Troll) :: c in TrollSet()
  {
    forall c | c in Cells(g, Troll) ensures c in TrollSet() {
      assert FreshSquare(c.x, c.y) == Troll;
    }
  }

  lemma FreshTrollSetIn(g: Grid)
    requires IsFresh(g)
    ensures forall c | c in TrollSet() :: c in Cells(g, Troll)
  {
    forall c | c in TrollSet() ensures c in Cells(g, Troll) {
      assert g[c.x][c.y] == FreshSquare(c.x, c.y);
    }
  }

  /** Exactly eight trolls: the centre block without its middle square. */
  lemma FreshTrolls(g: Grid)
    requires IsFresh(g)
    ensures Cells(g, Troll) == TrollSet()
    ensures Count(g, Troll) == 8
  {
    FreshTrollCellsIn(g);
    FreshTrollSetIn(g);
    TrollSetSize();
  }

  lemma TrollSetSize()
    ensures |TrollSet()| == 8
  {
  }

  /** The squares arm k produces from seeds below m. */
  function ArmPrefix(k: nat, m: nat): set<Coord>
    requires k < 4 && m <= 6
  {
    set n | 0 <= n < m :: Arm(k, n)
  }

  lemma ArmPrefixStep(k: nat, m: nat)
    requires k < 4 && 0 < m <= 6
    ensures ArmPrefix(k, m) == ArmPrefix(k, m - 1) + {Arm(k, m - 1)}
    ensures Arm(k, m - 1) !in ArmPrefix(k, m - 1)
  {
    ArmSeedExact(k, Arm(k, m - 1));
  }

  /** Distinct seeds give distinct squares, so each arm has six. */
  lemma {:induction false} ArmPrefixSize(k: nat, m: nat)
    requires k < 4 && m <= 6
    ensures |ArmPrefix(k, m)| == m
  {
    if m > 0 {
      ArmPrefixSize(k, m - 1);
      ArmPrefixStep(k, m);
    }
  }

  lemma DisjointUnionSize(a: set<Coord>, b: set<Coord>)
    requires forall c | c in a :: c !in b
    ensures |a + b| == |a| + |b|
  {
    assert a * b == {};
  }

  /** The dwarf squares of `fresh` as a set: four arms and the extras. */
  function DwarfSet(): set<Coord>
  {
    ArmSquares() + ExtraSet()
  }

  function ArmSquares(): set<Coord>
  {
    ArmPrefix(0, 6) + ArmPrefix(1, 6) + ArmPrefix(2, 6) + ArmPrefix(3, 6)
  }

  function ExtraSet(): set<Coord>
  {
    set c | c in Extras
  }

  /** Each arm lies on its own line. */
  lemma ArmPrefixOn(k: nat, m: nat)
    requires k < 4 && m <= 6
    ensures forall c | c in ArmPrefix(k, m) :: OnArm(k, c.x, c.y)
  {
  }

  lemma TwoArms()
    ensures |ArmPrefix(0, 6) + ArmPrefix(1, 6)| == 12
    ensures forall c | c in ArmPrefix(0, 6) + ArmPrefix(1, 6) :: OnArm(0, c.x, c.y) || OnArm(1, c.x, c.y)
  {
    ArmPrefixSize(0, 6);
    ArmPrefixSize(1, 6);
    ArmPrefixOn(0, 6);
    ArmPrefixOn(1, 6);
    DisjointUnionSize(ArmPrefix(0, 6), ArmPrefix(1, 6));
  }

  lemma ThreeArms()
    ensures |ArmPrefix(0, 6) + ArmPrefix(1, 6) + ArmPrefix(2, 6)| == 18
    ensures forall c | c in ArmPrefix(0, 6) + ArmPrefix(1, 6) + ArmPrefix(2, 6) ::
              OnArm(0, c.x, c.y) || OnArm(1, c.x, c.y) || OnArm(2, c.x, c.y)
  {
    TwoArms();
    ArmPrefixSize(2, 6);
    ArmPrefixOn(2, 6);
    DisjointUnionSize(ArmPrefix(0, 6) + ArmPrefix(1, 6), ArmPrefix(2, 6));
  }

  lemma FourArms()
    ensures |ArmSquares()| == 24
    ensures forall c | c in ArmSquares() ::
              OnArm(0, c.x, c.y) || OnArm(1, c.x, c.y) || OnArm(2, c.x, c.y) || OnArm(3, c.x, c.y)
  {
    ThreeArms();
    ArmPrefixSize(3, 6);
    ArmPrefixOn(3, 6);
    DisjointUnionSize(ArmPrefix(0, 6) + ArmPrefix(1, 6) + ArmPrefix(2, 6), ArmPrefix(3, 6));
  }

  lemma ExtrasSet()
    ensures ExtraSet() ==
            {Pair(0, 6), Pair(0, 8), Pair(14, 6), Pair(14, 8), Pair(6, 0), Pair(8, 0), Pair(6, 14), Pair(8, 14)}
  {
  }

  lemma ExtrasSize()
    ensures |{Pair(0, 6), Pair(0, 8), Pair(14, 6), Pair(14, 8), Pair(6, 0), Pair(8, 0), Pair(6, 14), Pair(8, 14)}| == 8
  {
  }

  /** The arms and the extras do not overlap: 4 * 6 + 8 squares. */
  lemma DwarfSetSize()
    ensures |DwarfSet()| == 32
  {
    FourArms();
    ExtraSetSize();
    ArmsMissExtras();
    DisjointUnionSize(ArmSquares(), ExtraSet());
  }

  lemma ExtraSetSize()
    ensures |ExtraSet()| == 8
  {
    ExtrasSet();
    ExtrasSize();
  }

  /** No arm square is an extra square. */
  lemma ArmsMissExtras()
    ensures forall c | c in ArmSquares() :: c !in ExtraSet()
  {
    FourArms();
    ExtrasExact();
  }

  /** The set holds exactly the squares of the arithmetic test. */
  lemma DwarfSetExact()
    ensures forall c: Coord :: c in DwarfSet() <==> DwarfStart(c.x, c.y)
  {
    ExtrasExact();
    ArmPrefixOn(0, 6);
    ArmPrefixOn(1, 6);
    ArmPrefixOn(2, 6);
    ArmPrefixOn(3, 6);
    forall c: Coord | DwarfStart(c.x, c.y) ensures c in DwarfSet() {
      if ExtraSquare(c.x, c.y) {
      } else {
        ArmCovered(c);
      }
    }
  }

  /** Every square on an arm line is produced by that arm. */
  lemma ArmCovered(c: Coord)
    requires DwarfStart(c.x, c.y) && !ExtraSquare(c.x, c.y)
    ensures c in ArmSquares()
  {
    var k: nat := if OnArm(0, c.x, c.y) then 0 else if OnArm(1, c.x, c.y) then 1 else if OnArm(2, c.x, c.y) then 2 else 3;
    ArmSeedExact(k, c);
    assert c in ArmPrefix(k, 6);
  }

  lemma FreshDwarfCellsIn(g: Grid)
    requires IsFresh(g)
    ensures forall c | c in Cells(g, Dwarf) :: c in DwarfSet()
  {
    DwarfSetExact();
    forall c | c in Cells(g, Dwarf) ensures c in DwarfSet() {
      assert g[c.x][c.y] == FreshSquare(c.x, c.y);
    }
  }

  lemma FreshDwarfSetIn(g: Grid)
    requires IsFresh(g)
    ensures forall c | c in DwarfSet() :: c in Cells(g, Dwarf)
  {
    DwarfSetExact();
    forall c | c in DwarfSet() ensures c in Cells(g, Dwarf) {
      assert g[c.x][c.y] == FreshSquare(c.x, c.y);
    }
  }

  /** Exactly 32 dwarves: four arms of six and the eight extras. */
  lemma FreshDwarves(g: Grid)
    requires IsFresh(g)
    ensures Cells(g, Dwarf) == DwarfSet()
    ensures Count(g, Dwarf) == 32
  {
    FreshDwarfCells(g);
    DwarfSetSize();
  }

  lemma FreshDwarfCells(g: Grid)
    requires IsFresh(g)
    ensures Cells(g, Dwarf) == DwarfSet()
  {
    FreshDwarfCellsIn(g);
    FreshDwarfSetIn(g);
    SameSet(Cells(g, Dwarf), DwarfSet());
  }

  lemma SameSet(a: set<Coord>, b: set<Coord>)
    requires forall c | c in a :: c in b
    requires forall c | c in b :: c in a
    ensures a == b
  {
  }

  /** The only Thudstone stands on the centre square. */
  ghost predicate OneStone(g: Grid)
  {
    forall c: Coord :: At(g, c) == Thudstone <==> c == Center
  }

  lemma FreshOneStone(g: Grid)
    requires IsFresh(g)
    ensures OneStone(g)
    ensures Count(g, Thudstone) == 1
  {
    forall c: Coord ensures At(g, c) == Thudstone <==> c == Center {
      assert g[c.x][c.y] == FreshSquare(c.x, c.y);
    }
    assert Cells(g, Thudstone) == {Center};
  }
}

/** Board addresses. A `Coord` is a pair of zero-based axis values that lies inside the octagonal
    Thud board: the 15x15 square with a triangle of 15 squares cut off each corner. */
module Coords {
  import opened Types

  /** A raw pair of axis values with no region check (what `diff` builds). */
  datatype Pair = Pair(x: nat, y: nat)

  /** The region test of `check_coords`, written over integers so that it can also be asked
      of a square one step past the edge. */
  predicate InRegion(x: int, y: int)
  {
    0 <= x <= 14 && 0 <= y <= 14 && 5 <= x + y <= 23 && 15 - x + y >= 6 && 15 + x - y >= 6
  }

  /** A checked square: only pairs inside the region exist as values of this type. */
  type Coord = p: Pair | InRegion(p.x, p.y) witness Pair(7, 7)

  /** The centre square, where the Thudstone stands. */
  const Center: Coord := Pair(7, 7)

  /** `check_coords`: the bounds test in the order the source evaluates it. */
  function CheckCoords(x: nat, y: nat): (r: Result<Unit, ThudError>)
    ensures r.Ok? <==> InRegion(x, y)
    ensures r.Err? ==> r.error == InvalidPosition
  {
    var sum := x + y;
    var invalid := x > 14 || y > 14 || sum < 5 || sum > 23 || 15 - x + y < 6 || 15 + x - y < 6;
    if invalid then Err(InvalidPosition) else Ok(())
  }

  /** `zero_based`: succeeds exactly on the octagon, i.e. both axes at most 14, the axis sum
      between 5 and 23, and the axes at most 9 apart. */
  function ZeroBased(x: nat, y: nat): (r: Result<Coord, ThudError>)
    ensures r.Ok? <==> x <= 14 && y <= 14 && 5 <= x + y <= 23 && x - y <= 9 && y - x <= 9
    ensures r.Ok? ==> r.value == Pair(x, y)
    ensures r.Err? ==> r.error == InvalidPosition
  {
    match CheckCoords(x, y)
    case Err(e) => Err(e)
    case Ok(_) => Ok(Pair(x, y))
  }

  /** `one_based`: both axes shifted down by one; an axis of 0 underflows in the source,
      so it is excluded by the precondition. */
  function OneBased(x: nat, y: nat): (r: Result<Coord, ThudError>)
    requires x >= 1 && y >= 1
    ensures r.Ok? <==> InRegion(x - 1, y - 1)
    ensures r.Ok? ==> r.value == Pair(x - 1, y - 1)
    ensures r.Err? ==> r.error == InvalidPosition
  {
    ZeroBased(x - 1, y - 1)
  }

  /** `From<(usize, usize)>`: `zero_based` followed by `unwrap`, so callers must pass a square
      of the board. */
  function FromPair(x: nat, y: nat): (c: Coord)
    requires InRegion(x, y)
    ensures ZeroBased(x, y) == Ok(c)
  {
    Pair(x, y)
  }

  /** `value`: the pair a coordinate was built from, always a square of the board. */
  function Value(c: Coord): (r: (nat, nat))
    ensures InRegion(r.0, r.1)
    ensures Pair(r.0, r.1) == c
  {
    (c.x, c.y)
  }

  /** `max`: the larger component. */
  function Max(p: Pair): (r: nat)
    ensures r >= p.x && r >= p.y
    ensures r == p.x || r == p.y
  {
    if p.x > p.y then p.x else p.y
  }

  /** `diff`: the absolute per-axis difference, as an unchecked pair. */
  function Diff(a: Pair, b: Pair): (r: Pair)
    ensures a.x == b.x + r.x || b.x == a.x + r.x
    ensures a.y == b.y + r.y || b.y == a.y + r.y
  {
    var newX := if a.x > b.x then a.x - b.x else b.x - a.x;
    var newY := if a.y > b.y then a.y - b.y else b.y - a.y;
    Pair(newX, newY)
  }

  /** `diff` followed by `max`: the Chebyshev (king-move) distance. */
  function Chebyshev(a: Pair, b: Pair): (r: nat)
    ensures r == 0 <==> a == b
  {
    Max(Diff(a, b))
  }

  /** A constructed coordinate gives back exactly the pair it was built from. */
  lemma ValueRoundTrip(x: nat, y: nat)
    requires ZeroBased(x, y).Ok?
    ensures Value(ZeroBased(x, y).value) == (x, y)
    ensures InRegion(x, y)
  {
  }

  /** The accepted and rejected pairs of the coordinate tests. */
  lemma RegionExamples()
    ensures ZeroBased(6, 9).Ok? && ZeroBased(2, 3).Ok? && ZeroBased(5, 0).Ok? && ZeroBased(9, 0).Ok?
    ensures ZeroBased(10, 2).Ok? && ZeroBased(13, 5).Ok? && ZeroBased(14, 6).Ok? && ZeroBased(14, 8).Ok?
    ensures ZeroBased(0, 0) == Err(InvalidPosition) && ZeroBased(4, 0) == Err(InvalidPosition)
    ensures ZeroBased(10, 0) == Err(InvalidPosition) && ZeroBased(14, 4) == Err(InvalidPosition)
    ensures ZeroBased(14, 10) == Err(InvalidPosition)
  {
  }

  /** The region is symmetric under swapping the axes and under the half turn about the centre. */
  lemma RegionSymmetric(x: int, y: int)
    ensures InRegion(x, y) <==> InRegion(y, x)
    ensures InRegion(x, y) <==> InRegion(14 - x, 14 - y)
  {
  }

  /** `diff` is symmetric and zero exactly on equal squares. */
  lemma DiffSymmetric(a: Pair, b: Pair)
    ensures Diff(a, b) == Diff(b, a)
    ensures Chebyshev(a, b) == Chebyshev(b, a)
    ensures Diff(a, a) == Pair(0, 0)
    ensures Diff(a, b) == Pair(0, 0) <==> a == b
  {
  }

  /** Distances of the coordinate examples and tests. */
  lemma ChebyshevExamples()
    ensures Chebyshev(Pair(7, 7), Pair(10, 10)) == 3 && Chebyshev(Pair(7, 7), Pair(12, 7)) == 5
    ensures Diff(Pair(7, 7), Pair(10, 10)) == Pair(3, 3) && Diff(Pair(7, 7), Pair(12, 7)) == Pair(5, 0)
    ensures Chebyshev(Pair(7, 7), Pair(8, 8)) == 1 && Chebyshev(Pair(7, 8), Pair(8, 8)) == 1
    ensures Chebyshev(Pair(7, 7), Pair(9, 8)) == 2 && Chebyshev(Pair(7, 7), Pair(10, 7)) == 3
  {
  }

  /** Number of y in [y, 15) such that (x, y) is on the board. */
  function RowSize(x: int, y: nat): (n: nat)
    requires y <= 15
    ensures n <= 15 - y
    decreases 15 - y
  {
    if y == 15 then 0 else (if InRegion(x, y) then 1 else 0) + RowSize(x, y + 1)
  }

  /** Number of squares of the board in rows x .. 14. */
  function RegionSizeFrom(x: nat): (n: nat)
    requires x <= 15
    decreases 15 - x
  {
    if x == 15 then 0 else RowSize(x, 0) + RegionSizeFrom(x + 1)
  }

  /** Closed form of a row count: the row holds the y with lo <= y <= hi. */
  lemma {:induction false} RowSizeClosed(x: int, y: nat, lo: int, hi: int)
    requires y <= 15 && 0 <= lo && hi <= 14
    requires forall z: int :: 0 <= z <= 14 ==> (InRegion(x, z) <==> lo <= z <= hi)
    ensures RowSize(x, y) == if hi < lo || hi < y then 0 else if y <= lo then hi - lo + 1 else hi - y + 1
    decreases 15 - y
  {
    if y < 15 {
      RowSizeClosed(x, y + 1, lo, hi);
    }
  }

  /** Row x of the board runs from max(0, 5 - x, x - 9) to min(14, 23 - x, x + 9). */
  lemma RowSizeOf(x: int)
    requires 0 <= x <= 14
    ensures RowSize(x, 0) == (if x <= 4 then 2 * x + 5 else if x <= 9 then 15 else 33 - 2 * x)
  {
    var lo := if x <= 4 then 5 - x else if x <= 9 then 0 else x - 9;
    var hi := if x <= 4 then x + 9 else if x <= 9 then 14 else 23 - x;
    RowSizeClosed(x, 0, lo, hi);
  }

  lemma {:induction false} RegionSizeFromClosed(x: nat)
    requires x <= 15
    ensures RegionSizeFrom(x) == SizeTable(x)
    decreases 15 - x
  {
    if x < 15 {
      RowSizeOf(x);
      RegionSizeFromClosed(x + 1);
    }
  }

  /** Sum of the closed-form row sizes of rows x .. 14. */
  function SizeTable(x: nat): nat
    requires x <= 15
    decreases 15 - x
  {
    if x == 15 then 0
    else (if x <= 4 then 2 * x + 5 else if x <= 9 then 15 else 33 - 2 * x) + SizeTable(x + 1)
  }

  lemma SizeTableTotal()
    ensures SizeTable(0) == 165
  {
    assert SizeTable(10) == 45 by {
      assert SizeTable(14) == 5;
      assert SizeTable(13) == 12;
      assert SizeTable(12) == 21;
      assert SizeTable(11) == 32;
    }
    assert SizeTable(5) == 120 by {
      assert SizeTable(9) == 60;
      assert SizeTable(8) == 75;
      assert SizeTable(7) == 90;
      assert SizeTable(6) == 105;
    }
    assert SizeTable(4) == 133;
    assert SizeTable(3) == 144;
    assert SizeTable(2) == 153;
    assert SizeTable(1) == 160;
  }

  /** The board has exactly 165 squares: four 15-square triangles are cut off 15x15. */
  lemma RegionSize()
    ensures RegionSizeFrom(0) == 165
  {
    RegionSizeFromClosed(0);
    SizeTableTotal();
  }
}

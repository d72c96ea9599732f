/** The move scenarios of the board tests, on the starting layout, optionally with a few pieces
    added by `place` first. Every square is passed as a parameter fixed by a precondition, and a
    grid with added pieces is described by what it holds rather than how it was built, so that
    rays and grids are reasoned about through their contracts. */
module Scenarios {
  import opened Types
  import opened Coords
  import opened Directions
  import opened Pieces
  import opened Grids
  import opened Rays
  import opened Lines
  import opened Moves

  // ---------------------------------------------------------------------------------------------
  // troll_move

  /** A troll steps to a free neighbour; not two squares, and not onto the Thudstone. */
  lemma TrollMoveTests(g: Grid)
    requires IsFresh(g)
    ensures TrollMove(g, Pair(8, 7), Pair(9, 7)).Ok?
    ensures TrollMove(g, Pair(8, 8), Pair(9, 9)).Ok?
    ensures TrollMove(g, Pair(8, 8), Pair(10, 10)) == Err(IllegalMove)
    ensures TrollMove(g, Pair(8, 8), Pair(7, 7)) == Err(IllegalMove)
  {
    FreshSquares(g, 8, 7);
    FreshSquares(g, 9, 7);
    FreshSquares(g, 8, 8);
    FreshSquares(g, 9, 9);
    FreshSquares(g, 10, 10);
    FreshSquares(g, 7, 7);
  }

  // ---------------------------------------------------------------------------------------------
  // Pieces placed before a move

  /** h is g with p placed on each square of cs. */
  ghost predicate PlacedOn(g: Grid, h: Grid, cs: seq<Coord>, p: Piece)
  {
    forall e: Coord :: At(h, e) == if e in cs then p else At(g, e)
  }

  /** The tests' `for place in pre_places { board.place(place, p) }`: p on each square in turn. */
  function PlaceAll(g: Grid, cs: seq<Coord>, p: Piece): (h: Grid)
    ensures PlacedOn(g, h, cs, p)
    decreases |cs|
  {
    if cs == [] then g
    else
      var h := PlaceAll(Placed(g, cs[0], p), cs[1..], p);
      assert forall e :: e in cs <==> e == cs[0] || e in cs[1..];
      h
  }

  /** The trolls, then the dwarves, the tests add. */
  const RowTrolls: seq<Coord> := [Pair(3, 6), Pair(4, 6), Pair(5, 6)]
  const DiagonalDwarves: seq<Coord> := [Pair(3, 10), Pair(4, 9)]
  const ColumnDwarves: seq<Coord> := [Pair(6, 1), Pair(6, 2), Pair(6, 3)]
  const DiagonalTroll: seq<Coord> := [Pair(6, 5)]

  // ---------------------------------------------------------------------------------------------
  // The outcomes of the moves, from the facts the scenarios establish about the squares.

  /** The line behind a route, from the count in the opposite direction. */
  lemma BehindIs(g: Grid, src: Coord, dst: Coord, d: Direction, p: Piece, n: nat)
    requires FromRoute(src, dst) == Ok(d) && CountLine(g, src, Opposite(d), p) == n
    ensures LineBehind(g, src, dst, p) == n
  {
  }

  /** A shove with a clear way, a dwarf at the target and a long enough line succeeds. */
  lemma ShoveGoes(g: Grid, t: Coord, dst: Coord)
    requires At(g, t) == Troll && At(g, dst) == Empty && VerifyClear(g, t, dst) == Ok(())
    requires DwarfNextTo(g, dst) && FromRoute(t, dst).Ok? && Chebyshev(t, dst) <= LineBehind(g, t, dst, Troll)
    ensures TrollShove(g, t, dst).Ok?
  {
  }

  /** A shove with a clear way and a dwarf at the target, but too short a line, reports both. */
  lemma ShoveFallsShort(g: Grid, t: Coord, dst: Coord, dist: nat, len: nat)
    requires At(g, t) == Troll && At(g, dst) == Empty && VerifyClear(g, t, dst) == Ok(())
    requires DwarfNextTo(g, dst) && FromRoute(t, dst).Ok?
    requires dist == Chebyshev(t, dst) && len == LineBehind(g, t, dst, Troll) && len < dist
    ensures TrollShove(g, t, dst) == Err(LineTooShort(dist, len))
  {
  }

  /** A shove with a clear way but no dwarf next to the target is illegal. */
  lemma ShoveLonely(g: Grid, t: Coord, dst: Coord)
    requires At(g, t) == Troll && At(g, dst) == Empty && VerifyClear(g, t, dst) == Ok(())
    requires !DwarfNextTo(g, dst)
    ensures TrollShove(g, t, dst) == Err(IllegalMove)
  {
  }

  /** A dwarf move whose way is blocked reports the obstacle. */
  lemma MoveStops(g: Grid, src: Coord, dst: Coord, e: ThudError)
    requires At(g, src) == Dwarf && At(g, dst) == Empty && VerifyClear(g, src, dst) == Err(e)
    ensures DwarfMove(g, src, dst) == Err(e)
  {
  }

  /** A hurl along a clear way, no farther than the line behind is long, succeeds. */
  lemma HurlGoes(g: Grid, src: Coord, dst: Coord)
    requires At(g, src) == Dwarf && At(g, dst) == Troll && VerifyClear(g, src, dst) == Ok(())
    requires FromRoute(src, dst).Ok? && Chebyshev(src, dst) <= LineBehind(g, src, dst, Dwarf)
    ensures DwarfHurl(g, src, dst).Ok?
  {
  }

  // ---------------------------------------------------------------------------------------------
  // troll_shove along row 6, from (8, 6) to the right

  /** The squares left of (8, 6) run along row 6 to the edge. */
  lemma RayLeftOfShover(c: Coord)
    requires c == Pair(8, 6)
    ensures |Ray(c, Left)| == 8
    ensures forall k | 0 <= k < 8 :: Ray(c, Left)[k] == Pair(7 - k, 6)
  {
    RayLengthIs(c, Left, 8);
    var r := Ray(c, Left);
    forall k | 0 <= k < 8 ensures r[k] == Pair(7 - k, 6) {
      assert (r[k].x, r[k].y) == Along(c, Left, k + 1);
    }
  }

  /** The squares right of (8, 6) up to (12, 6) are empty on the starting layout, and stay so
      when trolls are placed on row 6 left of (8, 6); so the way from (8, 6) to any square up to
      (13, 6) is clear. */
  lemma RowRightOfShover(g: Grid, h: Grid, t: Coord, dst: Coord)
    requires IsFresh(g) && (h == g || PlacedOn(g, h, RowTrolls, Troll))
    requires t == Pair(8, 6) && dst.y == 6 && 9 <= dst.x <= 13
    ensures VerifyClear(h, t, dst) == Ok(())
  {
    var s := [Pair(9, 6), Pair(10, 6), Pair(11, 6), Pair(12, 6)][..dst.x - 9];
    forall k | 0 <= k < |s| ensures (s[k].x, s[k].y) == Along(t, Right, k + 1) && At(h, s[k]) == Empty {
      FreshSquares(g, 9 + k, 6);
    }
    ClearAlong(h, t, dst, Right, s);
  }

  /** The route from (8, 6) to (13, 6): five squares to the right, so the line behind runs left. */
  lemma ShoveRouteFar(t: Coord, dst: Coord)
    requires t == Pair(8, 6) && dst == Pair(13, 6)
    ensures FromRoute(t, dst) == Ok(Right) && Opposite(Right) == Left && Chebyshev(t, dst) == 5
  {
  }

  /** The route from (8, 6) to (12, 6): four squares to the right. */
  lemma ShoveRouteNear(t: Coord, dst: Coord)
    requires t == Pair(8, 6) && dst == Pair(12, 6)
    ensures FromRoute(t, dst) == Ok(Right) && Opposite(Right) == Left && Chebyshev(t, dst) == 4
  {
  }

  /** The troll on (8, 6) and the empty target square, with or without the added trolls. */
  lemma ShoveEnds(g: Grid, h: Grid, t: Coord, dst: Coord)
    requires IsFresh(g) && (h == g || PlacedOn(g, h, RowTrolls, Troll))
    requires t == Pair(8, 6) && dst.y == 6 && 12 <= dst.x <= 13
    ensures At(h, t) == Troll && At(h, dst) == Empty
  {
    FreshSquares(g, 8, 6);
    FreshSquares(g, dst.x, 6);
  }

  /** On the starting layout (8, 6), (7, 6) and (6, 6) hold trolls and (5, 6) is empty; r stands
      for the squares left of (8, 6). */
  lemma ShortLineSquares(g: Grid, t: Coord, r: seq<Coord>)
    requires IsFresh(g) && t == Pair(8, 6) && |r| == 8
    requires forall k :: 0 <= k < |r| ==> (r[k].x, r[k].y) == Along(t, Left, k + 1)
    ensures At(g, t) == Troll && At(g, r[2]) == Empty
    ensures forall k | 0 <= k < 2 :: At(g, r[k]) == Troll
  {
    FreshSquares(g, 8, 6);
    forall k | 0 <= k < 2 ensures At(g, r[k]) == Troll {
      FreshSquares(g, 7 - k, 6);
    }
    FreshSquares(g, 5, 6);
  }

  /** Without help the line behind (8, 6) holds three trolls. */
  lemma ShortLine(g: Grid, t: Coord)
    requires IsFresh(g) && t == Pair(8, 6)
    ensures CountLine(g, t, Left, Troll) == 3
  {
    RayLengthIs(t, Left, 8);
    ShortLineSquares(g, t, Ray(t, Left));
    CountLineIs(g, t, Left, Troll, 3);
  }

  /** The dwarf on (14, 6) stands next to (13, 6), with or without the added trolls. */
  lemma DwarfNextToEdge(g: Grid, h: Grid, c: Coord)
    requires IsFresh(g) && (h == g || PlacedOn(g, h, RowTrolls, Troll)) && c == Pair(13, 6)
    ensures DwarfNextTo(h, c)
  {
    FreshSquares(g, 14, 6);
    assert Chebyshev(c, Pair(14, 6)) == 1;
  }

  /** So shoving five squares is too far for it. */
  lemma TrollShoveShortLine(g: Grid, t: Coord, dst: Coord)
    requires IsFresh(g) && t == Pair(8, 6) && dst == Pair(13, 6)
    ensures TrollShove(g, t, dst) == Err(LineTooShort(5, 3))
  {
    ShoveEnds(g, g, t, dst);
    ShoveRouteFar(t, dst);
    RowRightOfShover(g, g, t, dst);
    DwarfNextToEdge(g, g, dst);
    ShortLine(g, t);
    BehindIs(g, t, dst, Right, Troll, 3);
    ShoveFallsShort(g, t, dst, 5, 3);
  }

  /** With trolls added on (3, 6), (4, 6) and (5, 6), (8, 6) down to (3, 6) hold trolls and
      (2, 6) is empty. */
  lemma LongLineSquares(g: Grid, h: Grid, t: Coord, r: seq<Coord>)
    requires IsFresh(g) && PlacedOn(g, h, RowTrolls, Troll) && t == Pair(8, 6) && |r| == 8
    requires forall k :: 0 <= k < |r| ==> (r[k].x, r[k].y) == Along(t, Left, k + 1)
    ensures At(h, t) == Troll && At(h, r[5]) == Empty
    ensures forall k | 0 <= k < 5 :: At(h, r[k]) == Troll
  {
    FreshSquares(g, 8, 6);
    forall k | 0 <= k < 5 ensures At(h, r[k]) == Troll {
      if k < 2 {
        FreshSquares(g, 7 - k, 6);
      }
    }
    FreshSquares(g, 2, 6);
  }

  /** With those trolls the line behind (8, 6) is six long. */
  lemma LongLine(g: Grid, h: Grid, t: Coord)
    requires IsFresh(g) && PlacedOn(g, h, RowTrolls, Troll) && t == Pair(8, 6)
    ensures CountLine(h, t, Left, Troll) == 6
  {
    RayLengthIs(t, Left, 8);
    LongLineSquares(g, h, t, Ray(t, Left));
    CountLineIs(h, t, Left, Troll, 6);
  }

  /** The line of six shoves its front troll five squares, next to the dwarf on (14, 6). */
  lemma TrollShoveLongLine(g: Grid, h: Grid, t: Coord, dst: Coord)
    requires IsFresh(g) && PlacedOn(g, h, RowTrolls, Troll) && t == Pair(8, 6) && dst == Pair(13, 6)
    ensures TrollShove(h, t, dst).Ok?
  {
    ShoveEnds(g, h, t, dst);
    ShoveRouteFar(t, dst);
    RowRightOfShover(g, h, t, dst);
    DwarfNextToEdge(g, h, dst);
    LongLine(g, h, t);
    BehindIs(h, t, dst, Right, Troll, 6);
    ShoveGoes(h, t, dst);
  }

  /** No square next to (12, 6) holds a dwarf, with the added trolls. */
  lemma NoDwarfNear(g: Grid, h: Grid, c: Coord)
    requires IsFresh(g) && PlacedOn(g, h, RowTrolls, Troll) && c == Pair(12, 6)
    ensures !DwarfNextTo(h, c)
  {
    forall e: Coord | Chebyshev(c, e) == 1 ensures At(h, e) != Dwarf {
      FreshSquares(g, e.x, e.y);
    }
  }

  /** The shove to (12, 6) is refused because no dwarf stands next to (12, 6), although the line
      of six is longer than the four squares. */
  lemma TrollShoveNoDwarf(g: Grid, h: Grid, t: Coord, dst: Coord)
    requires IsFresh(g) && PlacedOn(g, h, RowTrolls, Troll) && t == Pair(8, 6) && dst == Pair(12, 6)
    ensures TrollShove(h, t, dst) == Err(IllegalMove)
    ensures LineBehind(h, t, dst, Troll) == 6 && Chebyshev(t, dst) == 4
  {
    ShoveEnds(g, h, t, dst);
    ShoveRouteNear(t, dst);
    RowRightOfShover(g, h, t, dst);
    NoDwarfNear(g, h, dst);
    LongLine(g, h, t);
    BehindIs(h, t, dst, Right, Troll, 6);
    ShoveLonely(h, t, dst);
  }

  // ---------------------------------------------------------------------------------------------
  // troll_shove up the diagonal, from (8, 7) to (11, 10)

  /** The squares down-left of (8, 7): (7, 6), (6, 5), (5, 4), (4, 3) and (3, 2). */
  lemma RayDownLeftOfShover(c: Coord)
    requires c == Pair(8, 7)
    ensures |Ray(c, DownLeft)| == 5
    ensures forall k | 0 <= k < 5 :: Ray(c, DownLeft)[k] == Pair(7 - k, 6 - k)
  {
    RayLengthIs(c, DownLeft, 5);
    var r := Ray(c, DownLeft);
    forall k | 0 <= k < 5 ensures r[k] == Pair(7 - k, 6 - k) {
      assert (r[k].x, r[k].y) == Along(c, DownLeft, k + 1);
    }
  }

  /** With a troll added on (6, 5), (8, 7), (7, 6) and (6, 5) hold trolls and (5, 4) is empty;
      r stands for the squares down-left of (8, 7). */
  lemma DiagonalLineSquares(g: Grid, h: Grid, t: Coord, r: seq<Coord>)
    requires IsFresh(g) && PlacedOn(g, h, DiagonalTroll, Troll) && t == Pair(8, 7)
    requires |r| == 5 && r[0] == Pair(7, 6) && r[1] == Pair(6, 5) && r[2] == Pair(5, 4)
    ensures At(h, t) == Troll && At(h, r[2]) == Empty
    ensures forall k | 0 <= k < 2 :: At(h, r[k]) == Troll
  {
    FreshSquares(g, 8, 7);
    FreshSquares(g, 7, 6);
    FreshSquares(g, 5, 4);
  }

  /** So the line behind (8, 7), away from (11, 10), is three long. */
  lemma DiagonalLine(g: Grid, h: Grid, t: Coord)
    requires IsFresh(g) && PlacedOn(g, h, DiagonalTroll, Troll) && t == Pair(8, 7)
    ensures CountLine(h, t, DownLeft, Troll) == 3
  {
    RayDownLeftOfShover(t);
    DiagonalLineSquares(g, h, t, Ray(t, DownLeft));
    CountLineIs(h, t, DownLeft, Troll, 3);
  }

  /** The troll on (8, 7), the empty (9, 8) and (10, 9) on the way, the empty target (11, 10)
      and the dwarf on (12, 11) next to it, none of them touched by the added troll. */
  lemma DiagonalShoveSquares(g: Grid, h: Grid, t: Coord, dst: Coord)
    requires IsFresh(g) && PlacedOn(g, h, DiagonalTroll, Troll) && t == Pair(8, 7) && dst == Pair(11, 10)
    ensures At(h, t) == Troll && At(h, dst) == Empty && DwarfNextTo(h, dst)
    ensures VerifyClear(h, t, dst) == Ok(())
  {
    FreshSquares(g, 8, 7);
    FreshSquares(g, 11, 10);
    FreshSquares(g, 12, 11);
    assert Chebyshev(dst, Pair(12, 11)) == 1;
    FreshSquares(g, 9, 8);
    FreshSquares(g, 10, 9);
    assert FromRoute(t, dst) == Ok(UpRight) && Chebyshev(t, dst) == 3;
    ClearAlong(h, t, dst, UpRight, [Pair(9, 8), Pair(10, 9)]);
  }

  /** The line of three shoves its front troll three squares up the diagonal. */
  lemma TrollShoveDiagonal(g: Grid, h: Grid, t: Coord, dst: Coord)
    requires IsFresh(g) && PlacedOn(g, h, DiagonalTroll, Troll) && t == Pair(8, 7) && dst == Pair(11, 10)
    ensures TrollShove(h, t, dst).Ok?
    ensures LineBehind(h, t, dst, Troll) == 3 && Chebyshev(t, dst) == 3
  {
    DiagonalShoveSquares(g, h, t, dst);
    DiagonalLine(g, h, t);
    assert FromRoute(t, dst) == Ok(UpRight) && Opposite(UpRight) == DownLeft;
    BehindIs(h, t, dst, UpRight, Troll, 3);
    ShoveGoes(h, t, dst);
  }

  // ---------------------------------------------------------------------------------------------
  // dwarf_move

  /** A dwarf runs up column 6 from (6, 0) to (6, 5), past the empty (6, 1) to (6, 4). */
  lemma DwarfMoveColumn(g: Grid, src: Coord, dst: Coord)
    requires IsFresh(g) && src == Pair(6, 0) && dst == Pair(6, 5)
    ensures DwarfMove(g, src, dst).Ok?
  {
    FreshSquares(g, 6, 0);
    FreshSquares(g, 6, 1);
    FreshSquares(g, 6, 2);
    FreshSquares(g, 6, 3);
    FreshSquares(g, 6, 4);
    FreshSquares(g, 6, 5);
    ColumnSixMove(g, src, dst);
  }

  /** The move up column 6 goes on any board with the dwarf on (6, 0) and (6, 1) to (6, 5)
      empty. */
  lemma ColumnSixMove(g: Grid, src: Coord, dst: Coord)
    requires src == Pair(6, 0) && dst == Pair(6, 5) && At(g, src) == Dwarf && At(g, dst) == Empty
    requires At(g, Pair(6, 1)) == Empty && At(g, Pair(6, 2)) == Empty
    requires At(g, Pair(6, 3)) == Empty && At(g, Pair(6, 4)) == Empty
    ensures DwarfMove(g, src, dst).Ok?
  {
    assert FromRoute(src, dst) == Ok(Up) && Chebyshev(src, dst) == 5;
    ClearAlong(g, src, dst, Up, [Pair(6, 1), Pair(6, 2), Pair(6, 3), Pair(6, 4)]);
  }

  /** Up column 8 the first occupied square is the troll on (8, 6), so it is the obstacle. */
  lemma ColumnEightBlocked(g: Grid, src: Coord, dst: Coord)
    requires IsFresh(g) && src == Pair(8, 0) && dst == Pair(8, 12)
    ensures VerifyClear(g, src, dst) == Err(Obstacle(8, 6))
  {
    var s := [Pair(8, 1), Pair(8, 2), Pair(8, 3), Pair(8, 4), Pair(8, 5), Pair(8, 6),
              Pair(8, 7), Pair(8, 8), Pair(8, 9), Pair(8, 10), Pair(8, 11)];
    forall k | 0 <= k < 5 ensures At(g, s[k]) == Empty {
      FreshSquares(g, 8, 1 + k);
    }
    FreshSquares(g, 8, 6);
    assert FromRoute(src, dst) == Ok(Up) && Chebyshev(src, dst) == 12;
    BlockedAt(g, src, dst, Up, s, 5);
  }

  /** The dwarf on (8, 0) and the empty square (8, 12). */
  lemma ColumnEightEnds(g: Grid, src: Coord, dst: Coord)
    requires IsFresh(g) && src == Pair(8, 0) && dst == Pair(8, 12)
    ensures At(g, src) == Dwarf && At(g, dst) == Empty
  {
    FreshSquares(g, 8, 0);
    FreshSquares(g, 8, 12);
  }

  /** So the dwarf moving up column 8 runs into it. */
  lemma DwarfMoveBlocked(g: Grid, src: Coord, dst: Coord)
    requires IsFresh(g) && src == Pair(8, 0) && dst == Pair(8, 12)
    ensures DwarfMove(g, src, dst) == Err(Obstacle(8, 6))
  {
    ColumnEightEnds(g, src, dst);
    ColumnEightBlocked(g, src, dst);
    MoveStops(g, src, dst, Obstacle(8, 6));
  }

  /** A dwarf runs up the diagonal from (6, 0) to (10, 4), past (7, 1), (8, 2) and (9, 3). */
  lemma DwarfMoveRising(g: Grid, src: Coord, dst: Coord)
    requires IsFresh(g) && src == Pair(6, 0) && dst == Pair(10, 4)
    ensures DwarfMove(g, src, dst).Ok?
  {
    FreshSquares(g, 6, 0);
    FreshSquares(g, 10, 4);
    var s := [Pair(7, 1), Pair(8, 2), Pair(9, 3)];
    forall k | 0 <= k < |s| ensures At(g, s[k]) == Empty {
      FreshSquares(g, 7 + k, 1 + k);
    }
    assert FromRoute(src, dst) == Ok(UpRight) && Chebyshev(src, dst) == 4;
    ClearAlong(g, src, dst, UpRight, s);
  }

  /** A dwarf runs down the long diagonal from (4, 13) to (12, 5), past the troll block's
      corner without touching it. */
  lemma DwarfMoveFalling(g: Grid, src: Coord, dst: Coord)
    requires IsFresh(g) && src == Pair(4, 13) && dst == Pair(12, 5)
    ensures DwarfMove(g, src, dst).Ok?
  {
    FreshSquares(g, 4, 13);
    FreshSquares(g, 12, 5);
    var s := [Pair(5, 12), Pair(6, 11), Pair(7, 10), Pair(8, 9), Pair(9, 8), Pair(10, 7), Pair(11, 6)];
    forall k | 0 <= k < |s| ensures At(g, s[k]) == Empty {
      FreshSquares(g, 5 + k, 12 - k);
    }
    assert FromRoute(src, dst) == Ok(DownRight) && Chebyshev(src, dst) == 8;
    ClearAlong(g, src, dst, DownRight, s);
  }

  /** (0, 5) already holds a dwarf. */
  lemma DwarfMoveOccupied(g: Grid)
    requires IsFresh(g)
    ensures DwarfMove(g, Pair(1, 4), Pair(0, 5)) == Err(IllegalMove)
  {
    FreshSquares(g, 1, 4);
    FreshSquares(g, 0, 5);
  }

  // ---------------------------------------------------------------------------------------------
  // dwarf_hurl

  /** The route from (4, 9) down the anti-diagonal to (6, 7), with (5, 8) between. */
  lemma AntiDiagonalRoute(src: Coord, dst: Coord)
    requires src == Pair(4, 9) && dst == Pair(6, 7)
    ensures FromRoute(src, dst) == Ok(DownRight) && Opposite(DownRight) == UpLeft
    ensures Chebyshev(src, dst) == 2
  {
  }

  /** The ray from (4, 9) towards the top-left corner: (3, 10) and (2, 11), then off the board. */
  lemma RayUpLeftOfHurler(c: Coord)
    requires c == Pair(4, 9)
    ensures |Ray(c, UpLeft)| == 2 && Ray(c, UpLeft)[0] == Pair(3, 10) && Ray(c, UpLeft)[1] == Pair(2, 11)
  {
    RayLengthIs(c, UpLeft, 2);
    var r := Ray(c, UpLeft);
    assert (r[0].x, r[0].y) == Along(c, UpLeft, 1);
    assert (r[1].x, r[1].y) == Along(c, UpLeft, 2);
  }

  /** With dwarves added on (3, 10) and (4, 9), those hold dwarves, and so does (2, 11) from the
      start. */
  lemma AntiDiagonalSquares(g: Grid, h: Grid, src: Coord, r: seq<Coord>)
    requires IsFresh(g) && PlacedOn(g, h, DiagonalDwarves, Dwarf) && src == Pair(4, 9)
    requires |r| == 2 && r[0] == Pair(3, 10) && r[1] == Pair(2, 11)
    ensures At(h, src) == Dwarf
    ensures forall k | 0 <= k < 2 :: At(h, r[k]) == Dwarf
  {
    FreshSquares(g, 2, 11);
  }

  /** So the line behind (4, 9), away from (6, 7), is three long, up to the edge. */
  lemma AntiDiagonalLine(g: Grid, h: Grid, src: Coord)
    requires IsFresh(g) && PlacedOn(g, h, DiagonalDwarves, Dwarf) && src == Pair(4, 9)
    ensures CountLine(h, src, UpLeft, Dwarf) == 3
  {
    RayUpLeftOfHurler(src);
    AntiDiagonalSquares(g, h, src, Ray(src, UpLeft));
    CountLineIs(h, src, UpLeft, Dwarf, 3);
  }

  /** The dwarf on (4, 9), the troll on (6, 7), and the empty (5, 8) between them. */
  lemma AntiDiagonalEnds(g: Grid, h: Grid, src: Coord, dst: Coord)
    requires IsFresh(g) && PlacedOn(g, h, DiagonalDwarves, Dwarf) && src == Pair(4, 9) && dst == Pair(6, 7)
    ensures At(h, src) == Dwarf && At(h, dst) == Troll && At(h, Pair(5, 8)) == Empty
  {
    FreshSquares(g, 6, 7);
    FreshSquares(g, 5, 8);
  }

  /** A line of three dwarves hurls its front dwarf two squares down the anti-diagonal onto the
      troll on (6, 7); the direction behind the line is the opposite of the route's. */
  lemma DwarfHurlAntiDiagonal(g: Grid, h: Grid, src: Coord, dst: Coord)
    requires IsFresh(g) && PlacedOn(g, h, DiagonalDwarves, Dwarf) && src == Pair(4, 9) && dst == Pair(6, 7)
    ensures DwarfHurl(h, src, dst).Ok?
  {
    AntiDiagonalEnds(g, h, src, dst);
    AntiDiagonalRoute(src, dst);
    ClearAlong(h, src, dst, DownRight, [Pair(5, 8)]);
    AntiDiagonalLine(g, h, src);
    BehindIs(h, src, dst, DownRight, Dwarf, 3);
    HurlGoes(h, src, dst);
  }

  /** With dwarves added on (6, 1), (6, 2) and (6, 3), (6, 3) down to the dwarf already on
      (6, 0) all hold dwarves; r stands for the squares below (6, 3). */
  lemma ColumnLineSquares(g: Grid, h: Grid, src: Coord, r: seq<Coord>)
    requires IsFresh(g) && PlacedOn(g, h, ColumnDwarves, Dwarf) && src == Pair(6, 3) && |r| == 3
    requires forall k :: 0 <= k < |r| ==> (r[k].x, r[k].y) == Along(src, Down, k + 1)
    ensures At(h, src) == Dwarf
    ensures forall k | 0 <= k < 3 :: At(h, r[k]) == Dwarf
  {
    FreshSquares(g, 6, 0);
  }

  /** So the column below (6, 3) is four long. */
  lemma ColumnLine(g: Grid, h: Grid, src: Coord)
    requires IsFresh(g) && PlacedOn(g, h, ColumnDwarves, Dwarf) && src == Pair(6, 3)
    ensures CountLine(h, src, Down, Dwarf) == 4
  {
    RayLengthIs(src, Down, 3);
    ColumnLineSquares(g, h, src, Ray(src, Down));
    CountLineIs(h, src, Down, Dwarf, 4);
  }

  /** The way from (6, 3) up to (6, 6) is clear: (6, 4) and (6, 5) stay empty with the added
      dwarves. */
  lemma ColumnClear(g: Grid, h: Grid, src: Coord, dst: Coord)
    requires IsFresh(g) && PlacedOn(g, h, ColumnDwarves, Dwarf) && src == Pair(6, 3) && dst == Pair(6, 6)
    ensures VerifyClear(h, src, dst) == Ok(())
  {
    FreshSquares(g, 6, 4);
    FreshSquares(g, 6, 5);
    assert FromRoute(src, dst) == Ok(Up) && Chebyshev(src, dst) == 3;
    ClearAlong(h, src, dst, Up, [Pair(6, 4), Pair(6, 5)]);
  }

  /** The hurl up column 6: a dwarf on (6, 3), a troll on (6, 6), three squares apart, and the
      line behind running down. */
  lemma ColumnHurlEnds(g: Grid, h: Grid, src: Coord, dst: Coord)
    requires IsFresh(g) && PlacedOn(g, h, ColumnDwarves, Dwarf) && src == Pair(6, 3) && dst == Pair(6, 6)
    ensures At(h, src) == Dwarf && At(h, dst) == Troll
    ensures FromRoute(src, dst) == Ok(Up) && Opposite(Up) == Down && Chebyshev(src, dst) == 3
  {
    FreshSquares(g, 6, 6);
  }

  /** A column of four dwarves hurls its top dwarf three squares up onto the troll on (6, 6). */
  lemma DwarfHurlColumn(g: Grid, h: Grid, src: Coord, dst: Coord)
    requires IsFresh(g) && PlacedOn(g, h, ColumnDwarves, Dwarf) && src == Pair(6, 3) && dst == Pair(6, 6)
    ensures DwarfHurl(h, src, dst).Ok?
  {
    ColumnHurlEnds(g, h, src, dst);
    ColumnClear(g, h, src, dst);
    ColumnLine(g, h, src);
    BehindIs(h, src, dst, Up, Dwarf, 4);
    HurlGoes(h, src, dst);
  }
}

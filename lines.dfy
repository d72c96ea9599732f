/** The value-level meaning of the board helpers that walk rays: `count_line`, `verify_clear`
    and `adjacent`. The loops of the board class are proved to compute these. */
module Lines {
  import opened Types
  import opened Coords
  import opened Directions
  import opened Pieces
  import opened Grids
  import opened Rays

  // ---------------------------------------------------------------------------------------------
  // count_line

  /** The length of the longest prefix of r whose squares all hold p. */
  function MatchRun(g: Grid, r: seq<Coord>, p: Piece): (n: nat)
    ensures n <= |r|
    ensures forall k :: 0 <= k < n ==> At(g, r[k]) == p
    ensures n < |r| ==> At(g, r[n]) != p
  {
    if r == [] || At(g, r[0]) != p then 0 else 1 + MatchRun(g, r[1..], p)
  }

  /** The run from position k of r: empty past the end, zero at a square without p, and one more
      than the run from k + 1 otherwise. */
  lemma MatchRunFrom(g: Grid, r: seq<Coord>, p: Piece, k: nat)
    requires k <= |r|
    ensures k == |r| ==> MatchRun(g, r[k..], p) == 0
    ensures k < |r| && At(g, r[k]) != p ==> MatchRun(g, r[k..], p) == 0
    ensures k < |r| && At(g, r[k]) == p ==> MatchRun(g, r[k..], p) == 1 + MatchRun(g, r[k + 1..], p)
  {
    if k < |r| {
      assert r[k..][0] == r[k];
      assert r[k..][1..] == r[k + 1..];
    }
  }

  /** The run is longer than k when it reaches k and the square at k continues it. */
  lemma MatchRunGrows(g: Grid, r: seq<Coord>, p: Piece, k: nat)
    requires k <= MatchRun(g, r, p) && k < |r| && At(g, r[k]) == p
    ensures k + 1 <= MatchRun(g, r, p)
  {
  }

  /** The run stops at k when it reaches k and the square at k does not continue it. */
  lemma MatchRunStops(g: Grid, r: seq<Coord>, p: Piece, k: nat)
    requires k <= MatchRun(g, r, p) && k < |r| && At(g, r[k]) != p
    ensures MatchRun(g, r, p) == k
  {
  }

  /** `count_line`: 0 when start does not hold p; otherwise start itself plus the unbroken run of
      p along the ray in direction d. */
  function CountLine(g: Grid, start: Coord, d: Direction, p: Piece): (n: nat)
    ensures n == 0 <==> At(g, start) != p
    ensures n <= |Ray(start, d)| + 1 <= 15
    ensures n > 0 ==> forall k :: 0 <= k < n - 1 ==> At(g, Ray(start, d)[k]) == p
    ensures n > 0 && n - 1 < |Ray(start, d)| ==> At(g, Ray(start, d)[n - 1]) != p
  {
    RayLength(start, d);
    if At(g, start) != p then 0 else 1 + MatchRun(g, Ray(start, d), p)
  }

  /** A line does not start on a square without p. */
  lemma CountLineOff(g: Grid, start: Coord, d: Direction, p: Piece)
    requires At(g, start) != p
    ensures CountLine(g, start, d, p) == 0
  {
  }

  /** A line on a square holding p is that square and the run of p along the ray. */
  lemma CountLineRun(g: Grid, start: Coord, d: Direction, p: Piece, n: nat)
    requires At(g, start) == p && n == MatchRun(g, Ray(start, d), p)
    ensures CountLine(g, start, d, p) == 1 + n
  {
  }

  /** A line counts the same from any square of it: one step further along the line it is one
      shorter. */
  lemma CountLineStep(g: Grid, start: Coord, d: Direction, p: Piece)
    requires At(g, start) == p && Modify(d, start).Ok?
    ensures CountLine(g, start, d, p) == 1 + CountLine(g, Modify(d, start).value, d, p)
  {
    RayTail(start, d);
  }

  /** A line is n long when the first n - 1 squares of the ray continue it and the next one, if
      there is one, does not. */
  lemma CountLineIs(g: Grid, start: Coord, d: Direction, p: Piece, n: nat)
    requires At(g, start) == p && 1 <= n <= |Ray(start, d)| + 1
    requires forall k | 0 <= k < n - 1 :: At(g, Ray(start, d)[k]) == p
    requires n - 1 < |Ray(start, d)| ==> At(g, Ray(start, d)[n - 1]) != p
    ensures CountLine(g, start, d, p) == n
  {
  }

  /** The line lengths checked by the tests, on the starting layout. Each is proved for an origin
      given as a parameter, so that the ray is reasoned about through its contract rather than by
      evaluating it. */
  lemma CountLineDwarfArm(g: Grid, c: Coord)
    requires IsFresh(g) && c == Pair(5, 0)
    ensures CountLine(g, c, UpLeft, Dwarf) == 6
  {
    RayLengthIs(c, UpLeft, 5);
    var r := Ray(c, UpLeft);
    forall k | 0 <= k < 5 ensures At(g, r[k]) == Dwarf {
      assert (r[k].x, r[k].y) == Along(c, UpLeft, k + 1);
      FreshSquares(g, 4 - k, 1 + k);
    }
    FreshSquares(g, 5, 0);
  }

  lemma CountLineDwarfAlone(g: Grid, c: Coord)
    requires IsFresh(g) && c == Pair(5, 0)
    ensures CountLine(g, c, Up, Dwarf) == 1
  {
    FreshSquares(g, 5, 0);
    FreshSquares(g, 5, 1);
    LineOfOne(g, c, Up, Dwarf, Pair(5, 1));
  }

  /** A line is the start square alone when the next square along does not continue it. */
  lemma LineOfOne(g: Grid, c: Coord, d: Direction, p: Piece, n: Coord)
    requires At(g, c) == p && (n.x, n.y) == Along(c, d, 1) && At(g, n) != p
    ensures CountLine(g, c, d, p) == 1
  {
    RayAt(c, d, 0, n);
    CountLineIs(g, c, d, p, 1);
  }

  /** The first three squares above (6, 6). */
  lemma RayAboveTroll(c: Coord)
    requires c == Pair(6, 6)
    ensures |Ray(c, Up)| >= 3
    ensures Ray(c, Up)[0] == Pair(6, 7) && Ray(c, Up)[1] == Pair(6, 8) && Ray(c, Up)[2] == Pair(6, 9)
  {
    RayAt(c, Up, 0, Pair(6, 7));
    RayAt(c, Up, 1, Pair(6, 8));
    RayAt(c, Up, 2, Pair(6, 9));
  }

  lemma CountLineTrollColumn(g: Grid, c: Coord)
    requires IsFresh(g) && c == Pair(6, 6)
    ensures CountLine(g, c, Up, Troll) == 3
  {
    FreshSquares(g, 6, 6);
    FreshSquares(g, 6, 7);
    FreshSquares(g, 6, 8);
    FreshSquares(g, 6, 9);
    TrollColumn(g, c);
  }

  lemma TrollColumn(g: Grid, c: Coord)
    requires c == Pair(6, 6) && At(g, c) == Troll && At(g, Pair(6, 7)) == Troll && At(g, Pair(6, 8)) == Troll
    requires At(g, Pair(6, 9)) != Troll
    ensures CountLine(g, c, Up, Troll) == 3
  {
    RayAboveTroll(c);
    CountLineIs(g, c, Up, Troll, 3);
  }

  /** The first two squares right of (7, 6). */
  lemma RayRightOfTroll(c: Coord)
    requires c == Pair(7, 6)
    ensures |Ray(c, Right)| >= 2 && Ray(c, Right)[0] == Pair(8, 6) && Ray(c, Right)[1] == Pair(9, 6)
  {
    RayAt(c, Right, 0, Pair(8, 6));
    RayAt(c, Right, 1, Pair(9, 6));
  }

  lemma CountLineTrollRow(g: Grid, c: Coord)
    requires IsFresh(g) && c == Pair(7, 6)
    ensures CountLine(g, c, Right, Troll) == 2
  {
    RayRightOfTroll(c);
    FreshSquares(g, 7, 6);
    FreshSquares(g, 8, 6);
    FreshSquares(g, 9, 6);
  }

  // ---------------------------------------------------------------------------------------------
  // verify_clear

  /** The squares strictly between two aligned squares, nearest to src first. */
  function Between(src: Coord, dst: Coord): (b: seq<Coord>)
    requires FromRoute(src, dst).Ok?
    ensures |b| == Chebyshev(src, dst) - 1
    ensures forall k :: 0 <= k < |b| ==> (b[k].x, b[k].y) == Along(src, FromRoute(src, dst).value, k + 1)
    ensures forall k :: 0 <= k < |b| ==> b[k] != dst && b[k] != src
  {
    var d := FromRoute(src, dst).value;
    RayThrough(src, dst, d);
    RaySteps(src, d);
    var b := Ray(src, d)[..Chebyshev(src, dst) - 1];
    assert forall k :: 0 <= k < |b| ==> b[k] != src by {
      forall k | 0 <= k < |b| ensures b[k] != src {
        RayRoute(src, d, k);
      }
    }
    b
  }

  /** A sequence of as many squares as lie between, each the matching step along the route,
      is the squares between. */
  lemma BetweenIs(src: Coord, dst: Coord, d: Direction, s: seq<Coord>)
    requires FromRoute(src, dst) == Ok(d) && |s| == Chebyshev(src, dst) - 1
    requires forall k :: 0 <= k < |s| ==> (s[k].x, s[k].y) == Along(src, d, k + 1)
    ensures Between(src, dst) == s
  {
    var b := Between(src, dst);
    assert forall k :: 0 <= k < |s| ==> b[k] == s[k];
  }

  /** The squares between are the ray towards dst cut off before dst. */
  lemma BetweenPrefix(src: Coord, dst: Coord, d: Direction)
    requires FromRoute(src, dst) == Ok(d)
    ensures Chebyshev(src, dst) <= |Ray(src, d)|
    ensures Between(src, dst) == Ray(src, d)[..Chebyshev(src, dst) - 1]
  {
    RayThrough(src, dst, d);
  }

  /** The squares between, for a route whose direction is known. */
  lemma BetweenAlong(src: Coord, dst: Coord, d: Direction)
    requires FromRoute(src, dst) == Ok(d)
    ensures forall k :: 0 <= k < |Between(src, dst)| ==> (Between(src, dst)[k].x, Between(src, dst)[k].y) == Along(src, d, k + 1)
  {
  }

  /** The position of the first square of s that is not Empty, if any. */
  function FirstOccupied(g: Grid, s: seq<Coord>): (r: Option<nat>)
    ensures r.None? <==> forall k :: 0 <= k < |s| ==> At(g, s[k]) == Empty
    ensures r.Some? ==> r.value < |s| && At(g, s[r.value]) != Empty
    ensures r.Some? ==> forall k :: 0 <= k < r.value ==> At(g, s[k]) == Empty
  {
    if s == [] then None
    else if At(g, s[0]) != Empty then Some(0)
    else match FirstOccupied(g, s[1..])
      case None => None
      case Some(i) => Some(i + 1)
  }

  /** The first occupied square is at i when it is occupied and those before it are empty. */
  lemma FirstOccupiedIs(g: Grid, s: seq<Coord>, i: nat)
    requires i < |s| && At(g, s[i]) != Empty
    requires forall k | 0 <= k < i :: At(g, s[k]) == Empty
    ensures FirstOccupied(g, s) == Some(i)
  {
  }

  /** `verify_clear`: the route error when the squares are not aligned, otherwise Obstacle at the
      first occupied square strictly between them, otherwise Ok. */
  function VerifyClear(g: Grid, src: Coord, dst: Coord): (r: Result<Unit, ThudError>)
    ensures FromRoute(src, dst).Err? ==> r == Err(MathError)
    ensures FromRoute(src, dst).Ok? ==>
              (r.Ok? <==> forall c | c in Between(src, dst) :: At(g, c) == Empty)
    ensures r.Err? && FromRoute(src, dst).Ok? ==>
              exists k :: 0 <= k < |Between(src, dst)| && At(g, Between(src, dst)[k]) != Empty &&
                r.error == Obstacle(Between(src, dst)[k].x, Between(src, dst)[k].y)
  {
    match FromRoute(src, dst)
    case Err(e) => Err(e)
    case Ok(_) =>
      var b := Between(src, dst);
      match FirstOccupied(g, b)
      case None => Ok(())
      case Some(i) => Err(Obstacle(b[i].x, b[i].y))
  }

  /** VerifyClear is Ok when the squares between are all empty. */
  lemma VerifyClearOk(g: Grid, src: Coord, dst: Coord)
    requires FromRoute(src, dst).Ok?
    requires forall k :: 0 <= k < |Between(src, dst)| ==> At(g, Between(src, dst)[k]) == Empty
    ensures VerifyClear(g, src, dst) == Ok(())
  {
  }

  /** VerifyClear is Ok when no square between is occupied. */
  lemma VerifyClearFree(g: Grid, src: Coord, dst: Coord)
    requires FromRoute(src, dst).Ok? && FirstOccupied(g, Between(src, dst)) == None
    ensures VerifyClear(g, src, dst) == Ok(())
  {
  }

  /** VerifyClear reports the first occupied square between as the obstacle. */
  lemma VerifyClearStops(g: Grid, src: Coord, dst: Coord, i: nat)
    requires FromRoute(src, dst).Ok?
    requires FirstOccupied(g, Between(src, dst)) == Some(i)
    ensures i < |Between(src, dst)|
    ensures VerifyClear(g, src, dst) == Err(Obstacle(Between(src, dst)[i].x, Between(src, dst)[i].y))
  {
  }

  /** VerifyClear stated on the ray towards dst: Ok when the empty run at the start of the ray
      reaches dst. */
  lemma ClearOnRay(g: Grid, src: Coord, dst: Coord, d: Direction)
    requires FromRoute(src, dst) == Ok(d)
    requires Chebyshev(src, dst) - 1 <= MatchRun(g, Ray(src, d), Empty)
    ensures VerifyClear(g, src, dst) == Ok(())
  {
    BetweenPrefix(src, dst, d);
    VerifyClearOk(g, src, dst);
  }

  /** VerifyClear stated on the ray towards dst: when the empty run at the start of the ray stops
      at position k, short of dst, the square there is the obstacle. */
  lemma ObstacleOnRay(g: Grid, src: Coord, dst: Coord, d: Direction, k: nat)
    requires FromRoute(src, dst) == Ok(d) && k < Chebyshev(src, dst) - 1
    requires MatchRun(g, Ray(src, d), Empty) == k
    ensures k < |Ray(src, d)|
    ensures VerifyClear(g, src, dst) == Err(Obstacle(Ray(src, d)[k].x, Ray(src, d)[k].y))
  {
    BetweenPrefix(src, dst, d);
    var b := Between(src, dst);
    assert b[k] == Ray(src, d)[k];
    FirstOccupiedIs(g, b, k);
    VerifyClearStops(g, src, dst, k);
  }

  /** The routes checked by the tests, on the starting layout; as for the line lengths, each is
      proved for a source square given as a parameter. */
  lemma VerifyClearRow(g: Grid, src: Coord)
    requires IsFresh(g) && src == Pair(6, 7)
    ensures VerifyClear(g, src, Pair(0, 7)) == Ok(())
  {
    var s := [Pair(5, 7), Pair(4, 7), Pair(3, 7), Pair(2, 7), Pair(1, 7)];
    forall k | 0 <= k < |s| ensures At(g, s[k]) == Empty {
      FreshSquares(g, 5 - k, 7);
    }
    ClearAlong(g, src, Pair(0, 7), Left, s);
  }

  lemma VerifyClearDiagonal(g: Grid, src: Coord)
    requires IsFresh(g) && src == Pair(6, 6)
    ensures VerifyClear(g, src, Pair(3, 3)) == Ok(())
  {
    var s := [Pair(5, 5), Pair(4, 4)];
    FreshSquares(g, 5, 5);
    FreshSquares(g, 4, 4);
    ClearAlong(g, src, Pair(3, 3), DownLeft, s);
  }

  lemma VerifyClearRising(g: Grid, src: Coord)
    requires IsFresh(g) && src == Pair(8, 0)
    ensures VerifyClear(g, src, Pair(13, 5)) == Ok(())
  {
    var s := [Pair(9, 1), Pair(10, 2), Pair(11, 3), Pair(12, 4)];
    forall k | 0 <= k < |s| ensures At(g, s[k]) == Empty {
      FreshSquares(g, 9 + k, 1 + k);
    }
    ClearAlong(g, src, Pair(13, 5), UpRight, s);
  }

  lemma VerifyClearBlocked(g: Grid, src: Coord)
    requires IsFresh(g) && src == Pair(7, 7)
    ensures VerifyClear(g, src, Pair(0, 7)) == Err(Obstacle(6, 7))
  {
    var s := [Pair(6, 7), Pair(5, 7), Pair(4, 7), Pair(3, 7), Pair(2, 7), Pair(1, 7)];
    FreshSquares(g, 6, 7);
    BlockedAt(g, src, Pair(0, 7), Left, s, 0);
  }

  /** The way is clear when the squares s, one per step along the route, are all empty. */
  lemma ClearAlong(g: Grid, src: Coord, dst: Coord, d: Direction, s: seq<Coord>)
    requires FromRoute(src, dst) == Ok(d) && |s| == Chebyshev(src, dst) - 1
    requires forall k :: 0 <= k < |s| ==> (s[k].x, s[k].y) == Along(src, d, k + 1) && At(g, s[k]) == Empty
    ensures VerifyClear(g, src, dst) == Ok(())
  {
    BetweenIs(src, dst, d, s);
    VerifyClearOk(g, src, dst);
  }

  /** The way is blocked by s[i] when s, one square per step along the route, is empty before
      it and s[i] is occupied. */
  lemma BlockedAt(g: Grid, src: Coord, dst: Coord, d: Direction, s: seq<Coord>, i: nat)
    requires FromRoute(src, dst) == Ok(d) && |s| == Chebyshev(src, dst) - 1
    requires forall k :: 0 <= k < |s| ==> (s[k].x, s[k].y) == Along(src, d, k + 1)
    requires i < |s| && At(g, s[i]) != Empty && forall k | 0 <= k < i :: At(g, s[k]) == Empty
    ensures VerifyClear(g, src, dst) == Err(Obstacle(s[i].x, s[i].y))
  {
    BetweenIs(src, dst, d, s);
    FirstOccupiedIs(g, s, i);
    VerifyClearStops(g, src, dst, i);
  }

  // ---------------------------------------------------------------------------------------------
  // adjacent

  /** The loop of `adjacent` over the directions ds, in order: the in-region neighbours of c in
      those directions, each with its piece. */
  function AdjacentOver(g: Grid, c: Coord, ds: seq<Direction>): (r: seq<(Coord, Piece)>)
    ensures |r| == OnBoardSteps(c, ds) <= |ds|
    ensures forall i :: 0 <= i < |r| ==> r[i].1 == At(g, r[i].0) && Chebyshev(c, r[i].0) == 1
    ensures forall d | d in ds && Modify(d, c).Ok? :: (Modify(d, c).value, At(g, Modify(d, c).value)) in r
    ensures forall i :: 0 <= i < |r| ==> exists d | d in ds :: Modify(d, c) == Ok(r[i].0)
  {
    if ds == [] then []
    else
      var rest := AdjacentOver(g, c, ds[1..]);
      assert forall d :: d in ds <==> d == ds[0] || d in ds[1..];
      match Modify(ds[0], c)
      case Err(_) => rest
      case Ok(n) =>
        ModifyRoute(ds[0], c);
        [(n, At(g, n))] + rest
  }

  /** One turn of the loop of `adjacent`: the neighbour in direction ds[i], if it is on the
      board, comes before those in the later directions. */
  lemma AdjacentOverFrom(g: Grid, c: Coord, ds: seq<Direction>, i: nat)
    requires i < |ds|
    ensures AdjacentOver(g, c, ds[i..]) ==
              (if Modify(ds[i], c).Ok? then [(Modify(ds[i], c).value, At(g, Modify(ds[i], c).value))] else []) +
              AdjacentOver(g, c, ds[i + 1..])
  {
    assert ds[i..][0] == ds[i];
    assert ds[i..][1..] == ds[i + 1..];
  }

  /** `adjacent`: the neighbours in the order of `Direction::all`. */
  function Adjacent(g: Grid, c: Coord): seq<(Coord, Piece)>
  {
    AdjacentOver(g, c, All())
  }

  /** A square at Chebyshev distance 1 is one step away in its route direction. */
  lemma NeighbourStep(c: Coord, e: Coord)
    requires Chebyshev(c, e) == 1
    ensures FromRoute(c, e).Ok? && Modify(FromRoute(c, e).value, c) == Ok(e)
  {
    RouteReachesEnd(c, e);
  }

  /** `adjacent` lists exactly the squares at Chebyshev distance 1, with their pieces, at most
      eight of them. */
  lemma AdjacentExact(g: Grid, c: Coord)
    ensures |Adjacent(g, c)| <= 8
    ensures forall i :: 0 <= i < |Adjacent(g, c)| ==> Adjacent(g, c)[i].1 == At(g, Adjacent(g, c)[i].0)
    ensures forall e: Coord :: (e, At(g, e)) in Adjacent(g, c) <==> Chebyshev(c, e) == 1
  {
    var a := Adjacent(g, c);
    forall e: Coord | Chebyshev(c, e) == 1 ensures (e, At(g, e)) in a {
      NeighbourStep(c, e);
    }
  }

  /** How many of the directions ds lead from c to a square of the region. */
  function OnBoardSteps(c: Coord, ds: seq<Direction>): (n: nat)
    ensures n <= |ds|
  {
    if ds == [] then 0 else (if Modify(ds[0], c).Ok? then 1 else 0) + OnBoardSteps(c, ds[1..])
  }

  /** The number of neighbours, direction by direction. */
  lemma StepsAll(c: Coord)
    ensures OnBoardSteps(c, All()) ==
              (if Modify(Up, c).Ok? then 1 else 0) + (if Modify(UpRight, c).Ok? then 1 else 0) +
              (if Modify(Right, c).Ok? then 1 else 0) + (if Modify(DownRight, c).Ok? then 1 else 0) +
              (if Modify(Down, c).Ok? then 1 else 0) + (if Modify(DownLeft, c).Ok? then 1 else 0) +
              (if Modify(Left, c).Ok? then 1 else 0) + (if Modify(UpLeft, c).Ok? then 1 else 0)
  {
    AllIsCompass();
    StepsFromDrop(c, Compass, 0);
    assert Compass[0..] == Compass;
    StepsCompass(c);
  }

  /** OnBoardSteps counted by position, from position i on. */
  function StepsFrom(c: Coord, ds: seq<Direction>, i: nat): nat
    requires i <= |ds|
    decreases |ds| - i
  {
    if i == |ds| then 0 else (if Modify(ds[i], c).Ok? then 1 else 0) + StepsFrom(c, ds, i + 1)
  }

  lemma {:induction false} StepsFromDrop(c: Coord, ds: seq<Direction>, i: nat)
    requires i <= |ds|
    ensures StepsFrom(c, ds, i) == OnBoardSteps(c, ds[i..])
    decreases |ds| - i
  {
    if i < |ds| {
      StepsFromDrop(c, ds, i + 1);
      assert ds[i..][1..] == ds[i + 1..];
    }
  }

  lemma StepsCompass(c: Coord)
    ensures StepsFrom(c, Compass, 0) ==
              (if Modify(Up, c).Ok? then 1 else 0) + (if Modify(UpRight, c).Ok? then 1 else 0) +
              (if Modify(Right, c).Ok? then 1 else 0) + (if Modify(DownRight, c).Ok? then 1 else 0) +
              (if Modify(Down, c).Ok? then 1 else 0) + (if Modify(DownLeft, c).Ok? then 1 else 0) +
              (if Modify(Left, c).Ok? then 1 else 0) + (if Modify(UpLeft, c).Ok? then 1 else 0)
  {
    var ds := Compass;
    assert StepsFrom(c, ds, 8) == 0;
    assert StepsFrom(c, ds, 7) == (if Modify(UpLeft, c).Ok? then 1 else 0);
    assert StepsFrom(c, ds, 6) == (if Modify(Left, c).Ok? then 1 else 0) + StepsFrom(c, ds, 7);
    assert StepsFrom(c, ds, 5) == (if Modify(DownLeft, c).Ok? then 1 else 0) + StepsFrom(c, ds, 6);
    assert StepsFrom(c, ds, 4) == (if Modify(Down, c).Ok? then 1 else 0) + StepsFrom(c, ds, 5);
    assert StepsFrom(c, ds, 3) == (if Modify(DownRight, c).Ok? then 1 else 0) + StepsFrom(c, ds, 4);
    assert StepsFrom(c, ds, 2) == (if Modify(Right, c).Ok? then 1 else 0) + StepsFrom(c, ds, 3);
    assert StepsFrom(c, ds, 1) == (if Modify(UpRight, c).Ok? then 1 else 0) + StepsFrom(c, ds, 2);
  }

  /** The neighbours of (0, 7) on the left edge: the steps Up, UpRight, Right, DownRight, Down stay in the region. */
  lemma LeftEdgeSteps(c: Coord)
    requires c == Pair(0, 7)
    ensures Modify(Up, c).Ok? && Modify(UpRight, c).Ok? && Modify(Right, c).Ok? && Modify(DownRight, c).Ok?
    ensures Modify(Down, c).Ok? && Modify(DownLeft, c).Err? && Modify(Left, c).Err? && Modify(UpLeft, c).Err?
  {
  }

  lemma AdjacentLeftEdge(g: Grid, c: Coord)
    requires c == Pair(0, 7)
    ensures |Adjacent(g, c)| == 5
  {
    LeftEdgeSteps(c);
    StepsAll(c);
  }

  /** The neighbours of (7, 0) on the bottom edge: the steps Up, UpRight, Right, Left, UpLeft stay in the region. */
  lemma BottomEdgeSteps(c: Coord)
    requires c == Pair(7, 0)
    ensures Modify(Up, c).Ok? && Modify(UpRight, c).Ok? && Modify(Right, c).Ok? && Modify(DownRight, c).Err?
    ensures Modify(Down, c).Err? && Modify(DownLeft, c).Err? && Modify(Left, c).Ok? && Modify(UpLeft, c).Ok?
  {
  }

  lemma AdjacentBottomEdge(g: Grid, c: Coord)
    requires c == Pair(7, 0)
    ensures |Adjacent(g, c)| == 5
  {
    BottomEdgeSteps(c);
    StepsAll(c);
  }

  /** The neighbours of (7, 14) on the top edge: the steps Right, DownRight, Down, DownLeft, Left stay in the region. */
  lemma TopEdgeSteps(c: Coord)
    requires c == Pair(7, 14)
    ensures Modify(Up, c).Err? && Modify(UpRight, c).Err? && Modify(Right, c).Ok? && Modify(DownRight, c).Ok?
    ensures Modify(Down, c).Ok? && Modify(DownLeft, c).Ok? && Modify(Left, c).Ok? && Modify(UpLeft, c).Err?
  {
  }

  lemma AdjacentTopEdge(g: Grid, c: Coord)
    requires c == Pair(7, 14)
    ensures |Adjacent(g, c)| == 5
  {
    TopEdgeSteps(c);
    StepsAll(c);
  }

  /** The neighbours of (14, 7) on the right edge: the steps Up, Down, DownLeft, Left, UpLeft stay in the region. */
  lemma RightEdgeSteps(c: Coord)
    requires c == Pair(14, 7)
    ensures Modify(Up, c).Ok? && Modify(UpRight, c).Err? && Modify(Right, c).Err? && Modify(DownRight, c).Err?
    ensures Modify(Down, c).Ok? && Modify(DownLeft, c).Ok? && Modify(Left, c).Ok? && Modify(UpLeft, c).Ok?
  {
  }

  lemma AdjacentRightEdge(g: Grid, c: Coord)
    requires c == Pair(14, 7)
    ensures |Adjacent(g, c)| == 5
  {
    RightEdgeSteps(c);
    StepsAll(c);
  }

  /** The entries of s whose piece is a dwarf, in order. */
  function FilterDwarves(s: seq<(Coord, Piece)>): (r: seq<(Coord, Piece)>)
    ensures forall x :: x in r <==> x in s && x.1 == Dwarf
  {
    if s == [] then []
    else
      var rest := FilterDwarves(s[1..]);
      assert forall x :: x in s <==> x == s[0] || x in s[1..];
      if s[0].1 == Dwarf then [s[0]] + rest else rest
  }

  /** The neighbours of c holding a dwarf, as `troll_shove` filters them. */
  function AdjacentDwarves(g: Grid, c: Coord): seq<(Coord, Piece)>
  {
    FilterDwarves(Adjacent(g, c))
  }

  /** The filter keeps exactly the neighbouring dwarves, so it is empty exactly when no dwarf
      stands next to c. */
  lemma AdjacentDwarvesExact(g: Grid, c: Coord)
    ensures forall e: Coord :: (e, Dwarf) in AdjacentDwarves(g, c) <==> Chebyshev(c, e) == 1 && At(g, e) == Dwarf
    ensures |AdjacentDwarves(g, c)| > 0 <==> exists e: Coord :: Chebyshev(c, e) == 1 && At(g, e) == Dwarf
  {
    AdjacentExact(g, c);
    var a := Adjacent(g, c);
    var r := AdjacentDwarves(g, c);
    if |r| > 0 {
      assert r[0] in r;
      var i :| 0 <= i < |a| && a[i] == r[0];
      assert Chebyshev(c, r[0].0) == 1 && At(g, r[0].0) == Dwarf;
    }
  }
}

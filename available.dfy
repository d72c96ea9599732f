/** The value-level meaning of `available_moves`, `score` and `winner`. The listing is stated as
    the source computes it, ray by ray; the lemmas then say exactly which squares it lists, and
    how that compares with the moves the mutators accept. */
module Available {
  import opened Types
  import opened Coords
  import opened Directions
  import opened Pieces
  import opened Grids
  import opened Rays
  import opened Lines
  import opened Moves
  import Players

  // ---------------------------------------------------------------------------------------------
  // One ray

  /** The dwarf's loop over one ray r, `count` squares already behind it: empty squares are
      listed and passed, a troll is listed when its index is at most `line` and ends the ray, and
      any other piece ends it. What it lists is a prefix of r; which squares exactly is stated by
      DwarfScanMember. */
  function DwarfScan(g: Grid, r: seq<Coord>, count: nat, line: nat): seq<Coord>
    decreases |r|
  {
    if r == [] then []
    else match At(g, r[0])
      case Empty => [r[0]] + DwarfScan(g, r[1..], count + 1, line)
      case Troll => if count <= line then [r[0]] else []
      case _ => []
  }

  /** What the dwarf's loop lists is a prefix of the ray. */
  lemma {:induction false} DwarfScanPrefix(g: Grid, r: seq<Coord>, count: nat, line: nat)
    ensures |DwarfScan(g, r, count, line)| <= |r|
    ensures forall k :: 0 <= k < |DwarfScan(g, r, count, line)| ==> DwarfScan(g, r, count, line)[k] == r[k]
    decreases |r|
  {
    if r != [] && At(g, r[0]) == Empty {
      DwarfScanPrefix(g, r[1..], count + 1, line);
    }
  }

  /** The troll's loop over what is left of the ray after `cast.next()`: the first n squares at
      most, up to the first that is not empty. So it lists the longest prefix of r, at most n
      long, of empty squares. */
  function TrollScan(g: Grid, r: seq<Coord>, n: nat): seq<Coord>
    decreases |r|
  {
    if r == [] || n == 0 || At(g, r[0]) != Empty then []
    else [r[0]] + TrollScan(g, r[1..], n - 1)
  }

  /** So it lists the longest prefix of r, at most n long, of empty squares. */
  lemma {:induction false} TrollScanPrefix(g: Grid, r: seq<Coord>, n: nat)
    ensures |TrollScan(g, r, n)| <= n && |TrollScan(g, r, n)| <= |r|
    ensures forall k :: 0 <= k < |TrollScan(g, r, n)| ==> TrollScan(g, r, n)[k] == r[k] && At(g, r[k]) == Empty
    ensures |TrollScan(g, r, n)| < n && |TrollScan(g, r, n)| < |r| ==> At(g, r[|TrollScan(g, r, n)|]) != Empty
    decreases |r|
  {
    if r != [] && n != 0 && At(g, r[0]) == Empty {
      TrollScanPrefix(g, r[1..], n - 1);
    }
  }

  /** What a dwarf on loc lists in direction d: the ray, with the dwarf line behind it. */
  function DwarfRay(g: Grid, loc: Coord, d: Direction): seq<Coord>
  {
    DwarfScan(g, Ray(loc, d), 0, CountLine(g, loc, Opposite(d), Dwarf))
  }

  /** What a troll on loc lists in direction d: the ray without its first square, as far as the
      troll line behind it is long. */
  function TrollRay(g: Grid, loc: Coord, d: Direction): seq<Coord>
  {
    TrollScan(g, Rest(Ray(loc, d)), CountLine(g, loc, Opposite(d), Troll))
  }

  /** A sequence without its first element; nothing of an empty one. */
  function Rest(r: seq<Coord>): seq<Coord>
  {
    if r == [] then [] else r[1..]
  }

  // ---------------------------------------------------------------------------------------------
  // All directions

  /** The dwarf's outer loop over the directions ds, its listings one after the other. */
  function DwarfMoves(g: Grid, loc: Coord, ds: seq<Direction>): (m: seq<Coord>)
    ensures forall c :: c in m <==> exists d | d in ds :: c in DwarfRay(g, loc, d)
  {
    if ds == [] then []
    else
      var rest := DwarfMoves(g, loc, ds[1..]);
      assert forall d :: d in ds <==> d == ds[0] || d in ds[1..];
      DwarfRay(g, loc, ds[0]) + rest
  }

  /** The troll's outer loop over the directions ds. */
  function TrollMoves(g: Grid, loc: Coord, ds: seq<Direction>): (m: seq<Coord>)
    ensures forall c :: c in m <==> exists d | d in ds :: c in TrollRay(g, loc, d)
  {
    if ds == [] then []
    else
      var rest := TrollMoves(g, loc, ds[1..]);
      assert forall d :: d in ds <==> d == ds[0] || d in ds[1..];
      TrollRay(g, loc, ds[0]) + rest
  }

  /** `available_moves`: by the piece on loc; nothing for an empty square or the Thudstone. */
  function AvailableMoves(g: Grid, loc: Coord): (m: seq<Coord>)
    ensures At(g, loc) != Dwarf && At(g, loc) != Troll ==> m == []
    ensures At(g, loc) == Dwarf ==> forall c :: c in m <==> exists d: Direction :: c in DwarfRay(g, loc, d)
    ensures At(g, loc) == Troll ==> forall c :: c in m <==> exists d: Direction :: c in TrollRay(g, loc, d)
  {
    match At(g, loc)
    case Dwarf => DwarfMoves(g, loc, All())
    case Troll => TrollMoves(g, loc, All())
    case _ => []
  }

  // ---------------------------------------------------------------------------------------------
  // One loop iteration at a time

  /** The dwarf's loop over a ray whose first k squares are empty and whose square k is not:
      those k squares, then square k if it is a troll close enough. */
  lemma {:induction false} DwarfScanRun(g: Grid, r: seq<Coord>, count: nat, line: nat, k: nat)
    requires k == MatchRun(g, r, Empty)
    ensures DwarfScan(g, r, count, line) ==
              r[..k] + if k < |r| && At(g, r[k]) == Troll && count + k <= line then [r[k]] else []
    decreases k
  {
    if k > 0 {
      assert At(g, r[0]) == Empty;
      DwarfScanRun(g, r[1..], count + 1, line, k - 1);
      assert r[..k] == [r[0]] + r[1..][..k - 1];
    }
  }

  /** The troll's loop over a ray whose first k squares are empty, stopped after n squares or at
      the end of the run of empty squares: just those k squares. */
  lemma {:induction false} TrollScanRun(g: Grid, r: seq<Coord>, n: nat, k: nat)
    requires k <= n && k <= MatchRun(g, r, Empty)
    requires k == n || k == MatchRun(g, r, Empty)
    ensures TrollScan(g, r, n) == r[..k]
    decreases k
  {
    if k > 0 {
      assert At(g, r[0]) == Empty;
      TrollScanRun(g, r[1..], n - 1, k - 1);
      assert r[..k] == [r[0]] + r[1..][..k - 1];
    }
  }

  /** A prefix grown by the next element. */
  lemma PrefixGrows(r: seq<Coord>, k: nat)
    requires k < |r|
    ensures r[..k] + [r[k]] == r[..k + 1]
  {
  }

  /** After the first square, what is left of a ray is the ray from index one, or nothing. */
  lemma RestFrom(r: seq<Coord>, skip: nat)
    requires skip == if r == [] then 0 else 1
    ensures Rest(r) == r[skip..]
  {
  }

  /** The outer loop for a dwarf: direction i contributes its ray, then the rest follow. */
  lemma DwarfMovesFrom(g: Grid, loc: Coord, ds: seq<Direction>, i: nat)
    requires i < |ds|
    ensures DwarfMoves(g, loc, ds[i..]) == DwarfRay(g, loc, ds[i]) + DwarfMoves(g, loc, ds[i + 1..])
  {
    assert ds[i..][0] == ds[i] && ds[i..][1..] == ds[i + 1..];
  }

  /** The outer loop for a troll: direction i contributes its ray, then the rest follow. */
  lemma TrollMovesFrom(g: Grid, loc: Coord, ds: seq<Direction>, i: nat)
    requires i < |ds|
    ensures TrollMoves(g, loc, ds[i..]) == TrollRay(g, loc, ds[i]) + TrollMoves(g, loc, ds[i + 1..])
  {
    assert ds[i..][0] == ds[i] && ds[i..][1..] == ds[i + 1..];
  }

  // ---------------------------------------------------------------------------------------------
  // Rays and routes

  /** The j-th square of the ray in d lies on the route in d, j + 1 away, with the first j
      squares of the ray between. */
  lemma OnRay(loc: Coord, d: Direction, j: nat)
    requires j < |Ray(loc, d)|
    ensures FromRoute(loc, Ray(loc, d)[j]) == Ok(d)
    ensures Chebyshev(loc, Ray(loc, d)[j]) == j + 1
    ensures Between(loc, Ray(loc, d)[j]) == Ray(loc, d)[..j]
  {
    RayRoute(loc, d, j);
  }

  /** Conversely a square on a route is on the ray in the route's direction, one place before
      its distance. */
  lemma OnRoute(loc: Coord, c: Coord)
    requires FromRoute(loc, c).Ok?
    ensures var d := FromRoute(loc, c).value;
            var j := Chebyshev(loc, c) - 1;
            0 <= j < |Ray(loc, d)| && Ray(loc, d)[j] == c && Between(loc, c) == Ray(loc, d)[..j]
  {
    RayThrough(loc, c, FromRoute(loc, c).value);
  }

  /** c is the j-th square of r, the squares before it are empty, and c is empty or a troll at
      index at most line - count: the squares the dwarf's loop lists. */
  ghost predicate DwarfReach(g: Grid, r: seq<Coord>, count: nat, line: nat, c: Coord, j: int)
  {
    0 <= j < |r| && r[j] == c && (forall k :: 0 <= k < j ==> At(g, r[k]) == Empty) &&
    (At(g, c) == Empty || (At(g, c) == Troll && count + j <= line))
  }

  /** Past an empty first square, reaching from the second square is reaching one further. */
  lemma DwarfReachShift(g: Grid, r: seq<Coord>, count: nat, line: nat, c: Coord, j: nat)
    requires r != [] && At(g, r[0]) == Empty
    ensures DwarfReach(g, r[1..], count + 1, line, c, j) <==> DwarfReach(g, r, count, line, c, j + 1)
  {
    var t := r[1..];
    if DwarfReach(g, t, count + 1, line, c, j) {
      forall k | 0 <= k < j + 1 ensures At(g, r[k]) == Empty {
        if k > 0 {
          assert r[k] == t[k - 1];
        }
      }
    }
    if DwarfReach(g, r, count, line, c, j + 1) {
      forall k | 0 <= k < j ensures At(g, t[k]) == Empty {
        assert t[k] == r[k + 1];
      }
    }
  }

  /** Everything the dwarf's loop lists is reached. */
  lemma {:induction false} DwarfScanSound(g: Grid, r: seq<Coord>, count: nat, line: nat, c: Coord)
    requires c in DwarfScan(g, r, count, line)
    ensures exists j :: DwarfReach(g, r, count, line, c, j)
    decreases |r|
  {
    if c == r[0] {
      assert DwarfReach(g, r, count, line, c, 0);
    } else {
      DwarfScanSound(g, r[1..], count + 1, line, c);
      var j :| DwarfReach(g, r[1..], count + 1, line, c, j);
      DwarfReachShift(g, r, count, line, c, j);
    }
  }

  /** Everything reached is listed by the dwarf's loop. */
  lemma {:induction false} DwarfScanComplete(g: Grid, r: seq<Coord>, count: nat, line: nat, c: Coord, j: int)
    requires DwarfReach(g, r, count, line, c, j)
    ensures c in DwarfScan(g, r, count, line)
    decreases j
  {
    if j > 0 {
      DwarfReachShift(g, r, count, line, c, j - 1);
      DwarfScanComplete(g, r[1..], count + 1, line, c, j - 1);
    }
  }

  /** c is the j-th square of t, j < n, and it and the squares before it are empty: the squares
      the troll's loop lists. */
  ghost predicate TrollReach(g: Grid, t: seq<Coord>, n: nat, c: Coord, j: int)
  {
    0 <= j < |t| && t[j] == c && j < n && forall k :: 0 <= k <= j ==> At(g, t[k]) == Empty
  }

  /** The troll's loop lists exactly the squares it reaches. */
  lemma TrollScanMember(g: Grid, t: seq<Coord>, n: nat, c: Coord)
    ensures c in TrollScan(g, t, n) <==> exists j :: TrollReach(g, t, n, c, j)
  {
    var m := TrollScan(g, t, n);
    TrollScanPrefix(g, t, n);
    if c in m {
      var i :| 0 <= i < |m| && m[i] == c;
      assert TrollReach(g, t, n, c, i);
    }
    if exists j :: TrollReach(g, t, n, c, j) {
      var j :| TrollReach(g, t, n, c, j);
      assert m[j] == c;
    }
  }

  // ---------------------------------------------------------------------------------------------
  // What a dwarf lists

  /** A square a dwarf lists lies on a route from it, and every square between is empty. */
  lemma DwarfListedRoute(g: Grid, loc: Coord, c: Coord)
    requires At(g, loc) == Dwarf && c in AvailableMoves(g, loc)
    ensures FromRoute(loc, c).Ok?
    ensures forall x | x in Between(loc, c) :: At(g, x) == Empty
    ensures At(g, c) == Empty || (At(g, c) == Troll && Chebyshev(loc, c) <= LineBehind(g, loc, c, Dwarf) + 1)
  {
    var d :| c in DwarfRay(g, loc, d);
    var r := Ray(loc, d);
    DwarfScanSound(g, r, 0, CountLine(g, loc, Opposite(d), Dwarf), c);
    var j :| DwarfReach(g, r, 0, CountLine(g, loc, Opposite(d), Dwarf), c, j);
    OnRay(loc, d, j);
  }

  /** Conversely a dwarf lists every square along a clear route that is empty, or a troll at
      most one square further than its line is long. */
  lemma DwarfRouteListed(g: Grid, loc: Coord, c: Coord)
    requires At(g, loc) == Dwarf && FromRoute(loc, c).Ok?
    requires forall x | x in Between(loc, c) :: At(g, x) == Empty
    requires At(g, c) == Empty || (At(g, c) == Troll && Chebyshev(loc, c) <= LineBehind(g, loc, c, Dwarf) + 1)
    ensures c in AvailableMoves(g, loc)
  {
    var d := FromRoute(loc, c).value;
    var j := Chebyshev(loc, c) - 1;
    var b := Between(loc, c);
    assert forall k :: 0 <= k < |b| ==> At(g, b[k]) == Empty by {
      forall k | 0 <= k < |b| ensures At(g, b[k]) == Empty {
        assert b[k] in b;
      }
    }
    OnRoute(loc, c);
    ReachAlongClearing(g, Ray(loc, d), b, 0, CountLine(g, loc, Opposite(d), Dwarf), c, j);
    DwarfScanComplete(g, Ray(loc, d), 0, CountLine(g, loc, Opposite(d), Dwarf), c, j);
    assert c in DwarfRay(g, loc, d);
  }

  /** A square is reached when the squares before it are those of an empty stretch b. */
  lemma ReachAlongClearing(g: Grid, r: seq<Coord>, b: seq<Coord>, count: nat, line: nat, c: Coord, j: nat)
    requires j < |r| && r[j] == c && b == r[..j] && forall k :: 0 <= k < |b| ==> At(g, b[k]) == Empty
    requires At(g, c) == Empty || (At(g, c) == Troll && count + j <= line)
    ensures DwarfReach(g, r, count, line, c, j)
  {
    assert forall k :: 0 <= k < j ==> r[k] == b[k];
  }

  /** A dwarf lists an empty square exactly when `dwarf_move` accepts it. */
  lemma DwarfListsMoves(g: Grid, loc: Coord, c: Coord)
    requires At(g, loc) == Dwarf && At(g, c) == Empty
    ensures c in AvailableMoves(g, loc) <==> DwarfMove(g, loc, c).Ok?
  {
    if c in AvailableMoves(g, loc) {
      DwarfListedRoute(g, loc, c);
    }
    if DwarfMove(g, loc, c).Ok? {
      DwarfRouteListed(g, loc, c);
    }
  }

  /** A dwarf lists a troll exactly when the way to it is clear and it is at most one square
      further than the line behind the dwarf is long. */
  lemma DwarfListsTrolls(g: Grid, loc: Coord, c: Coord)
    requires At(g, loc) == Dwarf && At(g, c) == Troll
    ensures c in AvailableMoves(g, loc) <==>
              FromRoute(loc, c).Ok? && VerifyClear(g, loc, c).Ok? &&
              Chebyshev(loc, c) <= LineBehind(g, loc, c, Dwarf) + 1
  {
    if c in AvailableMoves(g, loc) {
      DwarfListedRoute(g, loc, c);
    }
    if FromRoute(loc, c).Ok? && VerifyClear(g, loc, c).Ok? && Chebyshev(loc, c) <= LineBehind(g, loc, c, Dwarf) + 1 {
      DwarfRouteListed(g, loc, c);
    }
  }

  /** A dwarf lists nothing but empty squares and trolls. */
  lemma DwarfListsNothingElse(g: Grid, loc: Coord, c: Coord)
    requires At(g, loc) == Dwarf && c in AvailableMoves(g, loc)
    ensures At(g, c) == Empty || At(g, c) == Troll
  {
    DwarfListedRoute(g, loc, c);
  }

  /** So every hurl `dwarf_hurl` accepts is listed, but the listing allows one square more than
      the hurl does. */
  lemma HurlsListed(g: Grid, loc: Coord, c: Coord)
    requires DwarfHurl(g, loc, c).Ok?
    ensures c in AvailableMoves(g, loc)
  {
    DwarfRouteListed(g, loc, c);
  }

  /** A board with a dwarf on (3, 7), a troll on (5, 7), and (2, 7) and (4, 7) empty. */
  ghost predicate LoneHurl(g: Grid)
  {
    At(g, Pair(3, 7)) == Dwarf && At(g, Pair(5, 7)) == Troll && At(g, Pair(2, 7)) == Empty && At(g, Pair(4, 7)) == Empty
  }

  /** The route from (3, 7) to (5, 7): two squares to the right, (4, 7) between. */
  lemma LoneHurlRoute(loc: Coord, c: Coord)
    requires loc == Pair(3, 7) && c == Pair(5, 7)
    ensures FromRoute(loc, c) == Ok(Right) && Chebyshev(loc, c) == 2
    ensures Between(loc, c) == [Pair(4, 7)]
  {
    RightTwo(loc, c);
    BetweenOne(loc, c, Pair(4, 7));
  }

  /** Two squares to the right on one row. */
  lemma RightTwo(loc: Coord, c: Coord)
    requires c.y == loc.y && c.x == loc.x + 2
    ensures FromRoute(loc, c) == Ok(Right) && Chebyshev(loc, c) == 2
  {
  }

  /** Two squares apart, the one square between is the first step of the route. */
  lemma BetweenOne(src: Coord, dst: Coord, m: Coord)
    requires FromRoute(src, dst).Ok? && Chebyshev(src, dst) == 2
    requires (m.x, m.y) == Along(src, FromRoute(src, dst).value, 1)
    ensures Between(src, dst) == [m]
  {
    var b := Between(src, dst);
    assert (b[0].x, b[0].y) == (m.x, m.y);
  }

  /** On such a board the dwarf's line is the dwarf alone: (2, 7) is empty. */
  lemma LoneHurlLine(g: Grid, loc: Coord)
    requires LoneHurl(g) && loc == Pair(3, 7)
    ensures CountLine(g, loc, Left, Dwarf) == 1
  {
    LineOfOne(g, loc, Left, Dwarf, Pair(2, 7));
  }

  /** The dwarf on (3, 7) of such a board lists the troll two squares away, but cannot hurl
      onto it. */
  lemma HurlListedTooFar(g: Grid, loc: Coord, c: Coord)
    requires LoneHurl(g) && loc == Pair(3, 7) && c == Pair(5, 7)
    ensures c in AvailableMoves(g, loc)
    ensures DwarfHurl(g, loc, c) == Err(LineTooShort(2, 1))
  {
    LoneHurlFacts(g, loc, c);
    ListedOneTooFar(g, loc, c);
  }

  /** On such a board the way to the troll is clear, it is two squares away, and the line
      behind the dwarf is one long. */
  lemma LoneHurlFacts(g: Grid, loc: Coord, c: Coord)
    requires LoneHurl(g) && loc == Pair(3, 7) && c == Pair(5, 7)
    ensures At(g, loc) == Dwarf && At(g, c) == Troll && FromRoute(loc, c).Ok? && VerifyClear(g, loc, c).Ok?
    ensures Chebyshev(loc, c) == 2 && LineBehind(g, loc, c, Dwarf) == 1
  {
    RightTwo(loc, c);
    LoneHurlClear(g, loc, c);
    OppositeRight();
    LoneHurlLine(g, loc);
  }

  lemma OppositeRight()
    ensures Opposite(Right) == Left
  {
  }

  /** The way from (3, 7) to (5, 7) is clear when (4, 7) is empty. */
  lemma LoneHurlClear(g: Grid, loc: Coord, c: Coord)
    requires loc == Pair(3, 7) && c == Pair(5, 7) && At(g, Pair(4, 7)) == Empty
    ensures VerifyClear(g, loc, c) == Ok(())
  {
    LoneHurlRoute(loc, c);
    ClearOfOne(g, loc, c, Pair(4, 7));
  }

  /** A route with one empty square between is clear. */
  lemma ClearOfOne(g: Grid, src: Coord, dst: Coord, m: Coord)
    requires FromRoute(src, dst).Ok? && Between(src, dst) == [m] && At(g, m) == Empty
    ensures VerifyClear(g, src, dst) == Ok(())
  {
    assert FirstOccupied(g, Between(src, dst)) == None;
    VerifyClearFree(g, src, dst);
  }

  /** A troll one square further than the dwarf line behind is long is listed, but the hurl onto
      it fails for the short line. */
  lemma ListedOneTooFar(g: Grid, loc: Coord, c: Coord)
    requires At(g, loc) == Dwarf && At(g, c) == Troll && FromRoute(loc, c).Ok? && VerifyClear(g, loc, c).Ok?
    requires Chebyshev(loc, c) == LineBehind(g, loc, c, Dwarf) + 1
    ensures c in AvailableMoves(g, loc)
    ensures DwarfHurl(g, loc, c) == Err(LineTooShort(Chebyshev(loc, c), LineBehind(g, loc, c, Dwarf)))
  {
    DwarfListsTrolls(g, loc, c);
  }

  // ---------------------------------------------------------------------------------------------
  // What a troll lists

  /** c is the j-th square of r, 1 <= j <= n, and it and the squares from the second on are
      empty: the squares a troll lists along the ray r with a line of n behind it. */
  ghost predicate TrollRayReach(g: Grid, r: seq<Coord>, n: nat, c: Coord, j: int)
  {
    1 <= j < |r| && r[j] == c && j <= n && forall k :: 1 <= k <= j ==> At(g, r[k]) == Empty
  }

  /** Reaching in the ray less its first square is reaching one further along the ray. */
  lemma TrollTailReach(g: Grid, r: seq<Coord>, n: nat, c: Coord, j: nat)
    requires r != []
    ensures TrollReach(g, r[1..], n, c, j) <==> TrollRayReach(g, r, n, c, j + 1)
  {
    var t := r[1..];
    if TrollReach(g, t, n, c, j) {
      forall k | 1 <= k <= j + 1 ensures At(g, r[k]) == Empty {
        assert r[k] == t[k - 1];
      }
    }
    if TrollRayReach(g, r, n, c, j + 1) {
      forall k | 0 <= k <= j ensures At(g, t[k]) == Empty {
        assert t[k] == r[k + 1];
      }
    }
  }

  /** The troll's loop over a ray less its first square lists exactly the squares reached along
      the ray. */
  lemma TrollScanTail(g: Grid, r: seq<Coord>, n: nat, c: Coord)
    ensures c in TrollScan(g, Rest(r), n) <==> exists j :: TrollRayReach(g, r, n, c, j)
  {
    if r != [] {
      TrollScanMember(g, r[1..], n, c);
      if c in TrollScan(g, r[1..], n) {
        var i :| TrollReach(g, r[1..], n, c, i);
        TrollTailReach(g, r, n, c, i);
      }
      if exists j :: TrollRayReach(g, r, n, c, j) {
        var j :| TrollRayReach(g, r, n, c, j);
        TrollTailReach(g, r, n, c, j - 1);
      }
    }
  }

  /** What a reached square says of the stretch b before it. */
  lemma TrollReachClears(g: Grid, r: seq<Coord>, b: seq<Coord>, n: nat, c: Coord, j: nat)
    requires j < |r| && b == r[..j]
    ensures TrollRayReach(g, r, n, c, j) <==>
              1 <= j && r[j] == c && j <= n && At(g, c) == Empty &&
              forall k :: 1 <= k < |b| ==> At(g, b[k]) == Empty
  {
    assert forall k :: 1 <= k < j ==> r[k] == b[k];
  }

  /** A square a troll lists is empty, at distance 2 up to one more than the line behind, and
      every square between but the first is empty. */
  lemma TrollListedRoute(g: Grid, loc: Coord, c: Coord)
    requires At(g, loc) == Troll && c in AvailableMoves(g, loc)
    ensures FromRoute(loc, c).Ok? && At(g, c) == Empty
    ensures 2 <= Chebyshev(loc, c) <= LineBehind(g, loc, c, Troll) + 1
    ensures forall k :: 1 <= k < |Between(loc, c)| ==> At(g, Between(loc, c)[k]) == Empty
  {
    var d :| c in TrollRay(g, loc, d);
    var r := Ray(loc, d);
    var n := CountLine(g, loc, Opposite(d), Troll);
    TrollScanTail(g, r, n, c);
    var j :| TrollRayReach(g, r, n, c, j);
    OnRay(loc, d, j);
    TrollReachClears(g, r, Between(loc, c), n, c, j);
  }

  /** Conversely a troll lists every such square. */
  lemma TrollRouteListed(g: Grid, loc: Coord, c: Coord)
    requires At(g, loc) == Troll && FromRoute(loc, c).Ok? && At(g, c) == Empty
    requires 2 <= Chebyshev(loc, c) <= LineBehind(g, loc, c, Troll) + 1
    requires forall k :: 1 <= k < |Between(loc, c)| ==> At(g, Between(loc, c)[k]) == Empty
    ensures c in AvailableMoves(g, loc)
  {
    var d := FromRoute(loc, c).value;
    var j := Chebyshev(loc, c) - 1;
    var n := CountLine(g, loc, Opposite(d), Troll);
    OnRoute(loc, c);
    TrollReachClears(g, Ray(loc, d), Between(loc, c), n, c, j);
    TrollScanTail(g, Ray(loc, d), n, c);
    assert c in TrollRay(g, loc, d);
  }

  /** A troll lists exactly the empty squares at distance 2 up to one more than the line behind
      it, along a line whose squares from the second on are empty: the first square next to the
      troll is never looked at. */
  lemma TrollListsSquares(g: Grid, loc: Coord, c: Coord)
    requires At(g, loc) == Troll
    ensures c in AvailableMoves(g, loc) <==>
              FromRoute(loc, c).Ok? && At(g, c) == Empty &&
              2 <= Chebyshev(loc, c) <= LineBehind(g, loc, c, Troll) + 1 &&
              forall k :: 1 <= k < |Between(loc, c)| ==> At(g, Between(loc, c)[k]) == Empty
  {
    if c in AvailableMoves(g, loc) {
      TrollListedRoute(g, loc, c);
    }
    if FromRoute(loc, c).Ok? && At(g, c) == Empty && 2 <= Chebyshev(loc, c) <= LineBehind(g, loc, c, Troll) + 1 &&
       forall k :: 1 <= k < |Between(loc, c)| ==> At(g, Between(loc, c)[k]) == Empty
    {
      TrollRouteListed(g, loc, c);
    }
  }

  /** A troll never lists a square that `troll_move` accepts: those are one step away. */
  lemma TrollListsNoStep(g: Grid, loc: Coord, c: Coord)
    requires At(g, loc) == Troll && c in AvailableMoves(g, loc)
    ensures TrollMove(g, loc, c).Err?
  {
    TrollListedRoute(g, loc, c);
  }

  // ---------------------------------------------------------------------------------------------
  // score and winner

  /** `score`: one point per dwarf and four per troll. */
  function Score(g: Grid): (s: (nat, nat))
    ensures s == (Count(g, Dwarf), 4 * Count(g, Troll))
  {
    ArmyExact(g, Dwarf);
    ArmyExact(g, Troll);
    (|Army(g, Dwarf)|, |Army(g, Troll)| * 4)
  }

  /** The starting layout scores 32 all. */
  lemma FreshScore(g: Grid)
    requires IsFresh(g)
    ensures Score(g) == (32, 32)
  {
    FreshDwarves(g);
    FreshTrolls(g);
  }

  /** The loop of `winner` over one army: the number of moves its pieces list, added up. */
  function MovesTotal(g: Grid, a: seq<Coord>): (n: nat)
    ensures n == 0 <==> forall i :: 0 <= i < |a| ==> AvailableMoves(g, a[i]) == []
  {
    if a == [] then 0
    else
      assert forall i :: 0 < i < |a| ==> a[i] == a[1..][i - 1];
      |AvailableMoves(g, a[0])| + MovesTotal(g, a[1..])
  }

  /** Some piece p on the board lists a move. */
  ghost predicate CanMove(g: Grid, p: Piece)
  {
    exists c: Coord :: At(g, c) == p && AvailableMoves(g, c) != []
  }

  /** The counting loop of `winner`: square i adds its number of moves to those of the rest. */
  lemma MovesTotalFrom(g: Grid, a: seq<Coord>, i: nat)
    requires i < |a|
    ensures MovesTotal(g, a[i..]) == |AvailableMoves(g, a[i])| + MovesTotal(g, a[i + 1..])
  {
    assert a[i..][0] == a[i] && a[i..][1..] == a[i + 1..];
  }

  /** A list whose total is positive holds a square that lists a move. */
  lemma TotalWitness(g: Grid, a: seq<Coord>) returns (c: Coord)
    requires MovesTotal(g, a) > 0
    ensures c in a && AvailableMoves(g, c) != []
  {
    var i :| 0 <= i < |a| && AvailableMoves(g, a[i]) != [];
    c := a[i];
  }

  /** A list holding a square that lists a move has a positive total. */
  lemma TotalOfMover(g: Grid, a: seq<Coord>, c: Coord)
    requires c in a && AvailableMoves(g, c) != []
    ensures MovesTotal(g, a) > 0
  {
    var i :| 0 <= i < |a| && a[i] == c;
  }

  /** An army's total is positive exactly when one of its pieces can move. */
  lemma TotalPositive(g: Grid, p: Piece)
    ensures MovesTotal(g, Army(g, p)) > 0 <==> CanMove(g, p)
  {
    var a := Army(g, p);
    ArmyExact(g, p);
    if MovesTotal(g, a) > 0 {
      var c := TotalWitness(g, a);
      assert At(g, c) == p;
    }
    if CanMove(g, p) {
      var c :| At(g, c) == p && AvailableMoves(g, c) != [];
      TotalOfMover(g, a, c);
    }
  }

  /** The result of `winner` from the two scores once a side has run out of moves. */
  function Verdict(s: (nat, nat)): (e: Players.EndState)
    ensures e == Players.Won(Players.Dwarf) <==> s.0 > s.1
    ensures e == Players.Won(Players.Troll) <==> s.1 > s.0
    ensures e == Players.Draw <==> s.0 == s.1
  {
    if s.0 > s.1 then Players.Won(Players.Dwarf)
    else if s.1 > s.0 then Players.Won(Players.Troll)
    else Players.Draw
  }

  /** `winner`: the game goes on while both sides can move; otherwise the higher score wins, and
      equal scores draw. */
  function Winner(g: Grid): (r: Option<Players.EndState>)
    ensures r.None? <==> CanMove(g, Dwarf) && CanMove(g, Troll)
    ensures r.Some? ==> r.value == Verdict(Score(g))
  {
    TotalPositive(g, Dwarf);
    TotalPositive(g, Troll);
    var dwarfMoves := MovesTotal(g, Army(g, Dwarf));
    var trollMoves := MovesTotal(g, Army(g, Troll));
    if trollMoves == 0 || dwarfMoves == 0 then Some(Verdict(Score(g))) else None
  }

  /** On the starting layout the dwarf on (6, 0) can run up to (6, 5) ... */
  lemma FreshDwarfMoves(g: Grid, loc: Coord, c: Coord)
    requires IsFresh(g) && loc == Pair(6, 0) && c == Pair(6, 5)
    ensures At(g, loc) == Dwarf && c in AvailableMoves(g, loc)
  {
    FreshSquares(g, 6, 0);
    FreshSquares(g, 6, 1);
    FreshSquares(g, 6, 2);
    FreshSquares(g, 6, 3);
    FreshSquares(g, 6, 4);
    FreshSquares(g, 6, 5);
    ColumnRun(g, loc, c);
  }

  /** A dwarf on (6, 0) lists an empty (6, 5) when (6, 1) to (6, 4) are empty. */
  lemma ColumnRun(g: Grid, loc: Coord, c: Coord)
    requires loc == Pair(6, 0) && c == Pair(6, 5) && At(g, loc) == Dwarf && At(g, c) == Empty
    requires At(g, Pair(6, 1)) == Empty && At(g, Pair(6, 2)) == Empty
    requires At(g, Pair(6, 3)) == Empty && At(g, Pair(6, 4)) == Empty
    ensures c in AvailableMoves(g, loc)
  {
    var s := [Pair(6, 1), Pair(6, 2), Pair(6, 3), Pair(6, 4)];
    assert FromRoute(loc, c) == Ok(Up) && Chebyshev(loc, c) == 5;
    RunListed(g, loc, c, Up, s);
  }

  /** A dwarf lists an empty square at the end of an empty stretch. */
  lemma RunListed(g: Grid, loc: Coord, c: Coord, d: Direction, s: seq<Coord>)
    requires At(g, loc) == Dwarf && At(g, c) == Empty
    requires FromRoute(loc, c) == Ok(d) && |s| == Chebyshev(loc, c) - 1
    requires forall k :: 0 <= k < |s| ==> (s[k].x, s[k].y) == Along(loc, d, k + 1) && At(g, s[k]) == Empty
    ensures c in AvailableMoves(g, loc)
  {
    BetweenIs(loc, c, d, s);
    DwarfRouteListed(g, loc, c);
  }

  /** A troll on (6, 6) with the Thudstone on (7, 7) behind it lists an empty (4, 4): its line
      is the troll alone, so it may go two squares, and the square next to it is not looked at. */
  lemma TrollByStone(g: Grid, loc: Coord, c: Coord)
    requires loc == Pair(6, 6) && c == Pair(4, 4)
    requires At(g, loc) == Troll && At(g, Pair(7, 7)) == Thudstone && At(g, c) == Empty
    ensures c in AvailableMoves(g, loc)
  {
    assert FromRoute(loc, c) == Ok(DownLeft) && Opposite(DownLeft) == UpRight;
    assert Chebyshev(loc, c) == 2;
    LineOfOne(g, loc, UpRight, Troll, Pair(7, 7));
    assert LineBehind(g, loc, c, Troll) == 1;
    TrollRouteListed(g, loc, c);
  }

  /** ... and the troll on (6, 6) lists (4, 4), past the empty (5, 5), its line of one being the
      troll itself, as the Thudstone stands behind it. */
  lemma FreshTrollMoves(g: Grid, loc: Coord, c: Coord)
    requires IsFresh(g) && loc == Pair(6, 6) && c == Pair(4, 4)
    ensures At(g, loc) == Troll && c in AvailableMoves(g, loc)
  {
    FreshSquares(g, 6, 6);
    FreshSquares(g, 4, 4);
    FreshSquares(g, 7, 7);
    TrollByStone(g, loc, c);
  }

  /** A piece that lists a square can move. */
  lemma ListedCanMove(g: Grid, loc: Coord, c: Coord)
    requires c in AvailableMoves(g, loc)
    ensures CanMove(g, At(g, loc))
  {
  }

  /** The game goes on while both sides can move. */
  lemma GoesOn(g: Grid)
    requires CanMove(g, Dwarf) && CanMove(g, Troll)
    ensures Winner(g) == None
  {
  }

  /** So both sides can move at the start ... */
  lemma FreshDwarvesMove(g: Grid)
    requires IsFresh(g)
    ensures CanMove(g, Dwarf)
  {
    FreshDwarfMoves(g, Pair(6, 0), Pair(6, 5));
    ListedCanMove(g, Pair(6, 0), Pair(6, 5));
  }

  lemma FreshTrollsMove(g: Grid)
    requires IsFresh(g)
    ensures CanMove(g, Troll)
  {
    FreshTrollMoves(g, Pair(6, 6), Pair(4, 4));
    ListedCanMove(g, Pair(6, 6), Pair(4, 4));
  }

  /** ... and the game is not over. */
  lemma FreshNotOver(g: Grid)
    requires IsFresh(g)
    ensures Winner(g) == None
  {
    FreshDwarvesMove(g);
    FreshTrollsMove(g);
    GoesOn(g);
  }
}

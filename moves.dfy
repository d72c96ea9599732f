/** The five mutators of the board as functions from a grid to the grid they leave (or the error
    they return, in which case the board keeps its old grid), and what they preserve. */
module Moves {
  import opened Types
  import opened Coords
  import opened Directions
  import opened Pieces
  import opened Grids
  import opened Rays
  import opened Lines

  /** The two `place` calls that end every successful move: src emptied, then dst holding p. */
  function Relocate(g: Grid, src: Coord, dst: Coord, p: Piece): (r: Grid)
    ensures At(r, dst) == p
    ensures src != dst ==> At(r, src) == Empty
    ensures forall e: Coord :: e != src && e != dst ==> At(r, e) == At(g, e)
  {
    Placed(Placed(g, src, Empty), dst, p)
  }

  /** r is g with the piece on src taken to dst, and every other square as it was. */
  ghost predicate Moved(g: Grid, r: Grid, src: Coord, dst: Coord, p: Piece)
  {
    At(r, src) == Empty && At(r, dst) == p && forall e: Coord :: e != src && e != dst ==> At(r, e) == At(g, e)
  }

  /** Some square next to c holds a dwarf. */
  ghost predicate DwarfNextTo(g: Grid, c: Coord)
  {
    exists e: Coord :: Chebyshev(c, e) == 1 && At(g, e) == Dwarf
  }

  /** The line of pieces standing behind src as seen from dst: the run that starts on src and
      leads away from dst. */
  function LineBehind(g: Grid, src: Coord, dst: Coord, p: Piece): (n: nat)
    requires FromRoute(src, dst).Ok?
    ensures n == CountLine(g, src, Opposite(FromRoute(src, dst).value), p)
  {
    RouteReachesEnd(src, dst);
    CountLine(g, src, FromRoute(dst, src).value, p)
  }

  // ---------------------------------------------------------------------------------------------
  // troll_move

  /** `troll_move`: a troll steps onto an empty neighbouring square; anything else is IllegalMove. */
  function TrollMove(g: Grid, troll: Coord, target: Coord): (r: Result<Grid, ThudError>)
    ensures r.Ok? <==> At(g, troll) == Troll && At(g, target) == Empty && Chebyshev(troll, target) == 1
    ensures r.Err? ==> r.error == IllegalMove
    ensures r.Ok? ==> Moved(g, r.value, troll, target, Troll)
  {
    if (At(g, troll), At(g, target)) != (Troll, Empty) then Err(IllegalMove)
    else if Chebyshev(troll, target) != 1 then Err(IllegalMove)
    else Ok(Relocate(g, troll, target, Troll))
  }

  // ---------------------------------------------------------------------------------------------
  // troll_shove

  /** `troll_shove`, its checks in the order the source makes them: occupancy, a clear path, a
      dwarf next to the target, and a line of trolls behind at least as long as the distance. */
  function TrollShove(g: Grid, troll: Coord, target: Coord): (r: Result<Grid, ThudError>)
    ensures (At(g, troll), At(g, target)) != (Troll, Empty) ==> r == Err(IllegalMove)
    ensures (At(g, troll), At(g, target)) == (Troll, Empty) && VerifyClear(g, troll, target).Err? ==>
              r == Err(VerifyClear(g, troll, target).error)
    ensures (At(g, troll), At(g, target)) == (Troll, Empty) && VerifyClear(g, troll, target).Ok? ==>
              (!DwarfNextTo(g, target) ==> r == Err(IllegalMove)) &&
              (DwarfNextTo(g, target) ==>
                 var dist := Chebyshev(troll, target);
                 var len := LineBehind(g, troll, target, Troll);
                 (dist > len ==> r == Err(LineTooShort(dist, len))) &&
                 (dist <= len ==> r.Ok? && Moved(g, r.value, troll, target, Troll)))
  {
    if (At(g, troll), At(g, target)) != (Troll, Empty) then Err(IllegalMove)
    else match VerifyClear(g, troll, target)
      case Err(e) => Err(e)
      case Ok(_) =>
        AdjacentDwarvesExact(g, target);
        if |AdjacentDwarves(g, target)| == 0 then Err(IllegalMove)
        else
          RouteReachesEnd(troll, target);
          var len := CountLine(g, troll, FromRoute(target, troll).value, Troll);
          var dist := Chebyshev(troll, target);
          if dist > len then Err(LineTooShort(dist, len))
          else Ok(Relocate(g, troll, target, Troll))
  }

  /** A shove succeeds exactly when all four checks pass. */
  lemma TrollShoveOk(g: Grid, troll: Coord, target: Coord)
    ensures TrollShove(g, troll, target).Ok? <==>
              At(g, troll) == Troll && At(g, target) == Empty && FromRoute(troll, target).Ok? &&
              (forall c | c in Between(troll, target) :: At(g, c) == Empty) &&
              DwarfNextTo(g, target) &&
              Chebyshev(troll, target) <= LineBehind(g, troll, target, Troll)
  {
  }

  // ---------------------------------------------------------------------------------------------
  // troll_capture

  /** The squares a capture in the directions ds empties: the neighbours of troll in those
      directions that hold a dwarf. */
  ghost function Captured(g: Grid, troll: Coord, ds: seq<Direction>): set<Coord>
  {
    set e | e in Cells(g, Dwarf) && exists d | d in ds :: Modify(d, troll) == Ok(e)
  }

  /** The loop of `troll_capture` over the directions ds, in order: every direction that leads to
      a dwarf empties that square and counts one. */
  function CaptureOver(g: Grid, troll: Coord, ds: seq<Direction>): (r: (Grid, nat))
    ensures forall e: Coord :: At(r.0, e) == if e in Captured(g, troll, ds) then Empty else At(g, e)
    ensures r.1 == |Captured(g, troll, ds)|
  {
    if ds == [] then
      assert Captured(g, troll, ds) == {};
      (g, 0)
    else
      var (h, n) := CaptureOver(g, troll, ds[..|ds| - 1]);
      CaptureLast(g, troll, ds, h, n);
      CaptureAt(h, n, troll, ds[|ds| - 1])
  }

  /** The body of the capture loop for one direction d: a dwarf on the square next to the troll
      in direction d is removed and counted. */
  function CaptureAt(h: Grid, n: nat, troll: Coord, d: Direction): (Grid, nat)
  {
    match Modify(d, troll)
    case Err(_) => (h, n)
    case Ok(e) => if At(h, e) == Dwarf then (Placed(h, e, Empty), n + 1) else (h, n)
  }

  /** The loop body for the last direction turns the capture of the others into the capture of
      them all. */
  lemma CaptureLast(g: Grid, troll: Coord, ds: seq<Direction>, h: Grid, n: nat)
    requires ds != []
    requires forall e: Coord :: At(h, e) == if e in Captured(g, troll, ds[..|ds| - 1]) then Empty else At(g, e)
    requires n == |Captured(g, troll, ds[..|ds| - 1])|
    ensures var r := CaptureAt(h, n, troll, ds[|ds| - 1]);
            (forall e: Coord :: At(r.0, e) == if e in Captured(g, troll, ds) then Empty else At(g, e)) &&
            r.1 == |Captured(g, troll, ds)|
  {
    var cap := Captured(g, troll, ds[..|ds| - 1]);
    CapturedExtend(g, troll, ds);
    match Modify(ds[|ds| - 1], troll)
    case Err(_) =>
    case Ok(e) =>
      if At(h, e) == Dwarf {
        CaptureStep(g, h, e, cap);
      } else {
        CaptureSkip(g, h, e, cap);
      }
  }

  /** Emptying a square that still holds a dwarf captures one more: the square joins the set. */
  lemma CaptureStep(g: Grid, h: Grid, e: Coord, cap: set<Coord>)
    requires forall x: Coord :: At(h, x) == if x in cap then Empty else At(g, x)
    requires At(h, e) == Dwarf
    ensures e !in cap && At(g, e) == Dwarf && |cap + {e}| == |cap| + 1
    ensures forall x: Coord :: At(Placed(h, e, Empty), x) == if x in cap + {e} then Empty else At(g, x)
  {
  }

  /** A square that no longer holds a dwarf adds nothing: it held none, or is captured already. */
  lemma CaptureSkip(g: Grid, h: Grid, e: Coord, cap: set<Coord>)
    requires forall x: Coord :: At(h, x) == if x in cap then Empty else At(g, x)
    requires At(h, e) != Dwarf
    ensures (if At(g, e) == Dwarf then cap + {e} else cap) == cap
  {
  }

  /** The captured set grows by the square of the last direction when that square still holds a
      dwarf, and not otherwise. */
  lemma CapturedExtend(g: Grid, troll: Coord, ds: seq<Direction>)
    requires ds != []
    ensures var init := ds[..|ds| - 1];
            var d := ds[|ds| - 1];
            Captured(g, troll, ds) ==
              if Modify(d, troll).Ok? && At(g, Modify(d, troll).value) == Dwarf
              then Captured(g, troll, init) + {Modify(d, troll).value}
              else Captured(g, troll, init)
  {
    var init := ds[..|ds| - 1];
    var d := ds[|ds| - 1];
    assert forall x :: x in ds <==> x in init || x == d by {
      assert ds == init + [d];
    }
  }

  /** `troll_capture`: IllegalMove unless troll holds a troll; otherwise the capture loop. */
  function TrollCapture(g: Grid, troll: Coord, targets: seq<Direction>): (r: Result<(Grid, nat), ThudError>)
    ensures r.Err? <==> At(g, troll) != Troll
    ensures r.Err? ==> r.error == IllegalMove
    ensures r.Ok? ==> forall e: Coord :: At(r.value.0, e) == if e in Captured(g, troll, targets) then Empty else At(g, e)
    ensures r.Ok? ==> r.value.1 == |Captured(g, troll, targets)|
  {
    if At(g, troll) != Troll then Err(IllegalMove) else Ok(CaptureOver(g, troll, targets))
  }

  /** The captured squares are neighbours of the troll that held a dwarf. */
  lemma CapturedNeighbours(g: Grid, troll: Coord, ds: seq<Direction>)
    ensures forall e | e in Captured(g, troll, ds) :: Chebyshev(troll, e) == 1 && At(g, e) == Dwarf
    ensures Captured(g, troll, ds) <= set i | 0 <= i < |Adjacent(g, troll)| :: Adjacent(g, troll)[i].0
  {
    forall e | e in Captured(g, troll, ds)
      ensures Chebyshev(troll, e) == 1 && At(g, e) == Dwarf
      ensures e in set i | 0 <= i < |Adjacent(g, troll)| :: Adjacent(g, troll)[i].0
    {
      CapturedNeighbour(g, troll, ds, e);
    }
  }

  /** One captured square: a neighbour of the troll, listed by `adjacent`, that held a dwarf. */
  lemma CapturedNeighbour(g: Grid, troll: Coord, ds: seq<Direction>, e: Coord)
    requires e in Captured(g, troll, ds)
    ensures Chebyshev(troll, e) == 1 && At(g, e) == Dwarf
    ensures e in set i | 0 <= i < |Adjacent(g, troll)| :: Adjacent(g, troll)[i].0
  {
    var d :| d in ds && Modify(d, troll) == Ok(e);
    assert Chebyshev(troll, e) == 1 by {
      ModifyRoute(d, troll);
    }
    NeighbourListed(g, troll, e);
  }

  /** A neighbour's square is among those `adjacent` lists. */
  lemma NeighbourListed(g: Grid, c: Coord, e: Coord)
    requires Chebyshev(c, e) == 1
    ensures e in set i | 0 <= i < |Adjacent(g, c)| :: Adjacent(g, c)[i].0
  {
    var a := Adjacent(g, c);
    AdjacentExact(g, c);
    var i :| 0 <= i < |a| && a[i] == (e, At(g, e));
    assert a[i].0 == e;
  }

  /** So at most eight dwarves fall to one capture. */
  lemma CapturedBound(g: Grid, troll: Coord, ds: seq<Direction>)
    ensures |Captured(g, troll, ds)| <= 8
  {
    CapturedNeighbours(g, troll, ds);
    AdjacentExact(g, troll);
    BoundedByList(Captured(g, troll, ds), Adjacent(g, troll));
  }

  lemma BoundedByList(c: set<Coord>, a: seq<(Coord, Piece)>)
    requires c <= set i | 0 <= i < |a| :: a[i].0
    ensures |c| <= |a|
  {
    var s := set i | 0 <= i < |a| :: a[i].0;
    ImageSize(a);
    assert s == c + (s - c);
  }

  /** A list has at least as many entries as it has distinct first components. */
  lemma {:induction false} ImageSize(a: seq<(Coord, Piece)>)
    ensures |set i | 0 <= i < |a| :: a[i].0| <= |a|
  {
    if a != [] {
      var init := a[..|a| - 1];
      ImageSize(init);
      assert (set i | 0 <= i < |a| :: a[i].0) == (set i | 0 <= i < |init| :: init[i].0) + {a[|a| - 1].0};
    }
  }

  /** Capturing removes exactly the captured dwarves and changes no other army. */
  lemma CaptureCounts(g: Grid, troll: Coord, targets: seq<Direction>)
    requires TrollCapture(g, troll, targets).Ok?
    ensures var (h, n) := TrollCapture(g, troll, targets).value;
            Cells(h, Dwarf) == Cells(g, Dwarf) - Captured(g, troll, targets) &&
            Count(h, Dwarf) + n == Count(g, Dwarf) &&
            Cells(h, Troll) == Cells(g, Troll) && Cells(h, Thudstone) == Cells(g, Thudstone)
  {
    var (h, n) := TrollCapture(g, troll, targets).value;
    var c := Captured(g, troll, targets);
    assert Cells(h, Dwarf) == Cells(g, Dwarf) - c;
    assert Cells(h, Troll) == Cells(g, Troll);
    assert Cells(h, Thudstone) == Cells(g, Thudstone);
    assert c <= Cells(g, Dwarf);
  }

  /** Directions that repeat or lead off the board capture nothing more. */
  lemma CaptureIgnoresRepeats(g: Grid, troll: Coord, ds: seq<Direction>, d: Direction)
    requires d in ds || Modify(d, troll).Err?
    ensures Captured(g, troll, ds + [d]) == Captured(g, troll, ds)
  {
    CapturedExtend(g, troll, ds + [d]);
    assert (ds + [d])[..|ds|] == ds;
    if Modify(d, troll).Ok? && At(g, Modify(d, troll).value) == Dwarf {
      assert Modify(d, troll).value in Captured(g, troll, ds);
    }
  }

  // ---------------------------------------------------------------------------------------------
  // dwarf_move

  /** `dwarf_move`: a dwarf slides any distance along a clear line onto an empty square. */
  function DwarfMove(g: Grid, dwarf: Coord, target: Coord): (r: Result<Grid, ThudError>)
    ensures (At(g, dwarf), At(g, target)) != (Dwarf, Empty) ==> r == Err(IllegalMove)
    ensures (At(g, dwarf), At(g, target)) == (Dwarf, Empty) && VerifyClear(g, dwarf, target).Err? ==>
              r == Err(VerifyClear(g, dwarf, target).error)
    ensures r.Ok? <==> At(g, dwarf) == Dwarf && At(g, target) == Empty && FromRoute(dwarf, target).Ok? &&
                       forall c | c in Between(dwarf, target) :: At(g, c) == Empty
    ensures r.Ok? ==> Moved(g, r.value, dwarf, target, Dwarf)
  {
    if (At(g, dwarf), At(g, target)) != (Dwarf, Empty) then Err(IllegalMove)
    else match VerifyClear(g, dwarf, target)
      case Err(e) => Err(e)
      case Ok(_) => Ok(Relocate(g, dwarf, target, Dwarf))
  }

  // ---------------------------------------------------------------------------------------------
  // dwarf_hurl

  /** `dwarf_hurl`: a dwarf is thrown onto a troll along a clear line, at most as far as the line
      of dwarves behind it is long; the troll is removed. */
  function DwarfHurl(g: Grid, dwarf: Coord, target: Coord): (r: Result<Grid, ThudError>)
    ensures At(g, dwarf) != Dwarf || At(g, target) != Troll ==> r == Err(IllegalMove)
    ensures At(g, dwarf) == Dwarf && At(g, target) == Troll && VerifyClear(g, dwarf, target).Err? ==>
              r == Err(VerifyClear(g, dwarf, target).error)
    ensures At(g, dwarf) == Dwarf && At(g, target) == Troll && VerifyClear(g, dwarf, target).Ok? ==>
              var dist := Chebyshev(dwarf, target);
              var len := LineBehind(g, dwarf, target, Dwarf);
              (len < dist ==> r == Err(LineTooShort(dist, len))) &&
              (dist <= len ==> r.Ok? && Moved(g, r.value, dwarf, target, Dwarf))
  {
    if At(g, dwarf) != Dwarf || At(g, target) != Troll then Err(IllegalMove)
    else match VerifyClear(g, dwarf, target)
      case Err(e) => Err(e)
      case Ok(_) =>
        RouteReachesEnd(dwarf, target);
        var len := CountLine(g, dwarf, FromRoute(target, dwarf).value, Dwarf);
        var dist := Chebyshev(dwarf, target);
        if len < dist then Err(LineTooShort(dist, len))
        else Ok(Relocate(g, dwarf, target, Dwarf))
  }

  /** A hurl always has a line of at least one: the dwarf itself, so a hurl onto a neighbouring
      troll along a clear line never fails for lack of support. */
  lemma HurlNeighbour(g: Grid, dwarf: Coord, target: Coord)
    requires At(g, dwarf) == Dwarf && At(g, target) == Troll && Chebyshev(dwarf, target) == 1
    ensures DwarfHurl(g, dwarf, target).Ok?
  {
    NeighbourStep(dwarf, target);
    assert Between(dwarf, target) == [];
  }

  // ---------------------------------------------------------------------------------------------
  // What the moves preserve

  /** Moving a piece from one square to another changes no army's size. */
  lemma MovedCounts(g: Grid, src: Coord, dst: Coord, p: Piece, q: Piece)
    requires At(g, src) == p && At(g, dst) == Empty && src != dst
    ensures Count(Relocate(g, src, dst, p), q) == Count(g, q)
  {
    var h := Placed(g, src, Empty);
    CountPlaced(g, src, Empty, q);
    CountPlaced(h, dst, p, q);
  }

  /** Replacing the troll on dst by the dwarf from src: one troll fewer, the dwarves as many. */
  lemma HurledCounts(g: Grid, src: Coord, dst: Coord)
    requires At(g, src) == Dwarf && At(g, dst) == Troll
    ensures var r := Relocate(g, src, dst, Dwarf);
            Count(r, Dwarf) == Count(g, Dwarf) && Count(r, Troll) == Count(g, Troll) - 1 &&
            Count(r, Thudstone) == Count(g, Thudstone)
  {
    var h := Placed(g, src, Empty);
    CountPlaced(g, src, Empty, Dwarf);
    CountPlaced(h, dst, Dwarf, Dwarf);
    CountPlaced(g, src, Empty, Troll);
    CountPlaced(h, dst, Dwarf, Troll);
    CountPlaced(g, src, Empty, Thudstone);
    CountPlaced(h, dst, Dwarf, Thudstone);
  }

  /** Two grids that agree on every square of the region have the same armies. */
  lemma SameSquares(g: Grid, h: Grid, q: Piece)
    requires forall e: Coord :: At(g, e) == At(h, e)
    ensures Cells(g, q) == Cells(h, q)
  {
  }

  /** A piece other than the Thudstone moving onto a square without it leaves the Thudstone
      where it was. */
  lemma MovedKeepsStone(g: Grid, r: Grid, src: Coord, dst: Coord, p: Piece)
    requires At(g, src) == p && p != Thudstone && At(g, dst) != Thudstone && Moved(g, r, src, dst, p)
    ensures Cells(r, Thudstone) == Cells(g, Thudstone)
  {
  }

  /** Any grid that is g with the piece on src moved to an empty dst has g's armies' sizes. */
  lemma MovedKeepsCounts(g: Grid, r: Grid, src: Coord, dst: Coord, p: Piece, q: Piece)
    requires At(g, src) == p && At(g, dst) == Empty && src != dst && Moved(g, r, src, dst, p)
    ensures Count(r, q) == Count(g, q)
  {
    var h := Relocate(g, src, dst, p);
    SameSquares(r, h, q);
    MovedCounts(g, src, dst, p, q);
  }

  /** Every move, shove and dwarf move keeps every army's size, and the Thudstone where it is. */
  lemma TrollMoveCounts(g: Grid, src: Coord, dst: Coord, q: Piece)
    requires TrollMove(g, src, dst).Ok?
    ensures Count(TrollMove(g, src, dst).value, q) == Count(g, q)
    ensures Cells(TrollMove(g, src, dst).value, Thudstone) == Cells(g, Thudstone)
  {
    MovedKeepsCounts(g, TrollMove(g, src, dst).value, src, dst, Troll, q);
    MovedKeepsStone(g, TrollMove(g, src, dst).value, src, dst, Troll);
  }

  lemma TrollShoveCounts(g: Grid, src: Coord, dst: Coord, q: Piece)
    requires TrollShove(g, src, dst).Ok?
    ensures Count(TrollShove(g, src, dst).value, q) == Count(g, q)
    ensures Cells(TrollShove(g, src, dst).value, Thudstone) == Cells(g, Thudstone)
  {
    MovedKeepsCounts(g, TrollShove(g, src, dst).value, src, dst, Troll, q);
    MovedKeepsStone(g, TrollShove(g, src, dst).value, src, dst, Troll);
  }

  lemma DwarfMoveCounts(g: Grid, src: Coord, dst: Coord, q: Piece)
    requires DwarfMove(g, src, dst).Ok?
    ensures Count(DwarfMove(g, src, dst).value, q) == Count(g, q)
    ensures Cells(DwarfMove(g, src, dst).value, Thudstone) == Cells(g, Thudstone)
  {
    MovedKeepsCounts(g, DwarfMove(g, src, dst).value, src, dst, Dwarf, q);
    MovedKeepsStone(g, DwarfMove(g, src, dst).value, src, dst, Dwarf);
  }

  /** A successful hurl takes exactly one troll off the board. */
  lemma HurlCounts(g: Grid, src: Coord, dst: Coord)
    requires DwarfHurl(g, src, dst).Ok?
    ensures var r := DwarfHurl(g, src, dst).value;
            Count(r, Dwarf) == Count(g, Dwarf) && Count(r, Troll) == Count(g, Troll) - 1 &&
            Count(r, Thudstone) == Count(g, Thudstone) && Cells(r, Thudstone) == Cells(g, Thudstone)
  {
    HurledCounts(g, src, dst);
    MovedKeepsStone(g, DwarfHurl(g, src, dst).value, src, dst, Dwarf);
  }
}

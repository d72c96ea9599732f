/** The mutable board: a 15x15 array of pieces, the ray iterator that walks it, and every board
    operation, each proved to compute what the value-level functions of Grids, Lines, Moves and
    Available say. */
module Boards {
  import opened Types
  import opened Coords
  import opened Directions
  import opened Pieces
  import opened Grids
  import opened Rays
  import opened Lines
  import opened Moves
  import opened Available
  import opened Setup
  import Players

  /** Two grids that agree on every cell are equal. */
  lemma SameGrid(g: Grid, h: Grid)
    requires forall i, j | 0 <= i < 15 && 0 <= j < 15 :: g[i][j] == h[i][j]
    ensures g == h
  {
    forall i | 0 <= i < 15 ensures g[i] == h[i] {
      assert forall j | 0 <= j < 15 :: g[i][j] == h[i][j];
    }
  }

  /** Concatenation is associative. Stated for the loop accumulators below: without these calls
      the loops of Adjacent and AvailableMoves cost the solver much more. */
  lemma AppendAssoc<T>(a: seq<T>, b: seq<T>, c: seq<T>)
    ensures (a + b) + c == a + (b + c)
  {
  }

  /** The success value a board mutator returns for the outcome the value-level function gives. */
  function Outcome(r: Result<Grid, ThudError>): Result<Unit, ThudError>
  {
    match r
    case Ok(_) => Ok(())
    case Err(e) => Err(e)
  }

  /** The grid a board mutator leaves: the new grid on success, the old one on an error. */
  function After(g: Grid, r: Result<Grid, ThudError>): Grid
  {
    match r
    case Ok(h) => h
    case Err(_) => g
  }

  /** `Board`: the squares, indexed [x][y] from zero. */
  class Board {
    const squares: array2<Piece>

    predicate Valid()
    {
      squares.Length0 == 15 && squares.Length1 == 15
    }

    /** `full_raw`: the contents of the board as a grid value. */
    function FullRaw(): Grid
      requires Valid()
      reads squares
    {
      seq(15, (i: int) requires 0 <= i < 15 reads squares =>
        seq(15, (j: int) requires 0 <= j < 15 reads squares => squares[i, j]))
    }

    /** Each cell of the grid value is the square of the array. */
    lemma FullRawCells()
      requires Valid()
      ensures forall i, j | 0 <= i < 15 && 0 <= j < 15 :: FullRaw()[i][j] == squares[i, j]
    {
    }

    /** `Board::default()`: every square holds `Piece::default()`. */
    constructor Default()
      ensures Valid() && fresh(squares)
      ensures FullRaw() == EmptyGrid()
    {
      squares := new Piece[15, 15]((i, j) => Pieces.Default());
      new;
      SameGrid(FullRaw(), EmptyGrid());
    }

    /** `fresh`: the default board, then the 3x3 troll block, the four dwarf arms of six, the
        eight extra dwarves, and last the Thudstone on the centre, over the middle troll. */
    constructor Fresh()
      ensures Valid() && fresh(squares)
      ensures FullRaw() == FreshGrid()
    {
      squares := new Piece[15, 15]((i, j) => Pieces.Default());
      new;
      SameGrid(FullRaw(), EmptyGrid());
      StartStage();
      for i := 6 to 9
        invariant Valid() && TrollStage(FullRaw(), i, 6)
      {
        for j := 6 to 9
          invariant Valid() && TrollStage(FullRaw(), i, j)
        {
          ghost var g := FullRaw();
          Place(FromPair(i, j), Troll);
          TrollStep(g, i, j);
        }
        TrollRow(FullRaw(), i);
      }
      TrollsDone(FullRaw());
      for k := 0 to 4
        invariant Valid() && DwarfStage(FullRaw(), k, 0, 0)
      {
        for n := 0 to 6
          invariant Valid() && DwarfStage(FullRaw(), k, n, 0)
        {
          ghost var g := FullRaw();
          Place(Arm(k, n), Dwarf);
          ArmStep(g, k, n);
        }
        ArmDone(FullRaw(), k);
      }
      for t := 0 to |Extras|
        invariant Valid() && DwarfStage(FullRaw(), 4, 0, t)
      {
        ghost var g := FullRaw();
        Place(Extras[t], Dwarf);
        ExtraStep(g, t);
      }
      ghost var g := FullRaw();
      Place(Center, Thudstone);
      StoneDone(g);
    }

    /** `get`: the piece on a square. */
    function Get(c: Coord): (p: Piece)
      requires Valid()
      reads squares
      ensures p == At(FullRaw(), c)
    {
      FullRawCells();
      squares[c.x, c.y]
    }

    /** `place`: overwrite one square; the grid becomes `Placed` of the old one. */
    method Place(c: Coord, p: Piece)
      requires Valid()
      modifies squares
      ensures FullRaw() == Placed(old(FullRaw()), c, p)
    {
      squares[c.x, c.y] := p;
      FullRawCells();
      SameGrid(FullRaw(), Placed(old(FullRaw()), c, p));
    }

    /** `army`: the two nested loops over all 15x15 squares, collecting those that hold the piece
        and pass `zero_based`. */
    method Army(piece: Piece) returns (result: seq<Coord>)
      requires Valid()
      ensures result == Grids.Army(FullRaw(), piece)
    {
      ghost var g := FullRaw();
      result := [];
      for x := 0 to 15
        invariant result == ArmyBefore(g, piece, x)
      {
        for y := 0 to 15
          invariant result == ArmyBefore(g, piece, x) + RowArmy(g, piece, x, y)
        {
          if squares[x, y] == piece {
            var coord := ZeroBased(x, y);
            if coord.Ok? {
              result := result + [coord.value];
            }
          }
        }
      }
    }

    /** `adjacent`: the neighbours of a square in the order of `Direction::all`, with their
        pieces. */
    method Adjacent(square: Coord) returns (adjacent: seq<(Coord, Piece)>)
      requires Valid()
      ensures adjacent == Lines.Adjacent(FullRaw(), square)
    {
      ghost var g := FullRaw();
      var ds := All();
      adjacent := [];
      for i := 0 to |ds|
        invariant adjacent + AdjacentOver(g, square, ds[i..]) == AdjacentOver(g, square, ds)
      {
        ghost var before := adjacent;
        var coord := Modify(ds[i], square);
        ghost var step := if coord.Ok? then [(coord.value, At(g, coord.value))] else [];
        if coord.Ok? {
          adjacent := adjacent + [(coord.value, Get(coord.value))];
        }
        AdjacentOverFrom(g, square, ds, i);
        AppendAssoc(before, step, AdjacentOver(g, square, ds[i + 1..]));
      }
    }

    /** `troll_move`: a troll steps onto an empty neighbouring square. */
    method TrollMove(troll: Coord, target: Coord) returns (r: Result<Unit, ThudError>)
      requires Valid()
      modifies squares
      ensures r == Outcome(Moves.TrollMove(old(FullRaw()), troll, target))
      ensures FullRaw() == After(old(FullRaw()), Moves.TrollMove(old(FullRaw()), troll, target))
    {
      if (Get(troll), Get(target)) != (Troll, Empty) {
        return Err(IllegalMove);
      }
      if Max(Diff(troll, target)) != 1 {
        return Err(IllegalMove);
      }
      Place(troll, Empty);
      Place(target, Troll);
      return Ok(());
    }

    /** `troll_shove`: occupancy, a clear path, a dwarf next to the target, then a line of trolls
        behind the mover at least as long as the distance. */
    method TrollShove(troll: Coord, target: Coord) returns (r: Result<Unit, ThudError>)
      requires Valid()
      modifies squares
      ensures r == Outcome(Moves.TrollShove(old(FullRaw()), troll, target))
      ensures FullRaw() == After(old(FullRaw()), Moves.TrollShove(old(FullRaw()), troll, target))
    {
      ghost var g := FullRaw();
      if (Get(troll), Get(target)) != (Troll, Empty) {
        return Err(IllegalMove);
      }
      var clear := VerifyClear(troll, target);
      assert FullRaw() == g;
      if clear.Err? {
        return Err(clear.error);
      }
      var near := Adjacent(target);
      assert FullRaw() == g;
      var dwarves := FilterDwarves(near);
      if |dwarves| == 0 {
        return Err(IllegalMove);
      }
      RouteReachesEnd(troll, target);
      var trollLen := CountLine(troll, FromRoute(target, troll).value, Troll);
      assert FullRaw() == g;
      var dist := Max(Diff(troll, target));
      assert dist > trollLen ==> Moves.TrollShove(g, troll, target) == Err(LineTooShort(dist, trollLen));
      if dist > trollLen {
        return Err(LineTooShort(dist, trollLen));
      }
      Place(troll, Empty);
      Place(target, Troll);
      return Ok(());
    }

    /** `troll_capture`: IllegalMove unless troll holds a troll; otherwise every listed direction
        that leads to a dwarf empties that square and counts one. */
    method TrollCapture(troll: Coord, targets: seq<Direction>) returns (r: Result<nat, ThudError>)
      requires Valid()
      modifies squares
      ensures Moves.TrollCapture(old(FullRaw()), troll, targets).Err? ==>
                r == Err(IllegalMove) && FullRaw() == old(FullRaw())
      ensures Moves.TrollCapture(old(FullRaw()), troll, targets).Ok? ==>
                r == Ok(Moves.TrollCapture(old(FullRaw()), troll, targets).value.1) &&
                FullRaw() == Moves.TrollCapture(old(FullRaw()), troll, targets).value.0
    {
      if Get(troll) != Troll {
        return Err(IllegalMove);
      }
      ghost var g := FullRaw();
      var captured: nat := 0;
      for i := 0 to |targets|
        invariant (FullRaw(), captured) == CaptureOver(g, troll, targets[..i])
      {
        assert targets[..i + 1][..i] == targets[..i];
        var coord := Modify(targets[i], troll);
        if coord.Ok? {
          if Get(coord.value) == Dwarf {
            Place(coord.value, Empty);
            captured := captured + 1;
          }
        }
      }
      assert targets[..|targets|] == targets;
      return Ok(captured);
    }

    /** `dwarf_move`: a dwarf slides along a clear line onto an empty square. */
    method DwarfMove(dwarf: Coord, target: Coord) returns (r: Result<Unit, ThudError>)
      requires Valid()
      modifies squares
      ensures r == Outcome(Moves.DwarfMove(old(FullRaw()), dwarf, target))
      ensures FullRaw() == After(old(FullRaw()), Moves.DwarfMove(old(FullRaw()), dwarf, target))
    {
      ghost var g := FullRaw();
      if (Get(dwarf), Get(target)) != (Dwarf, Empty) {
        return Err(IllegalMove);
      }
      var clear := VerifyClear(dwarf, target);
      assert FullRaw() == g;
      if clear.Err? {
        return Err(clear.error);
      }
      Place(dwarf, Empty);
      Place(target, Dwarf);
      return Ok(());
    }

    /** `dwarf_hurl`: a dwarf is thrown onto a troll along a clear line, no further than the line
        of dwarves behind it is long. */
    method DwarfHurl(dwarf: Coord, target: Coord) returns (r: Result<Unit, ThudError>)
      requires Valid()
      modifies squares
      ensures r == Outcome(Moves.DwarfHurl(old(FullRaw()), dwarf, target))
      ensures FullRaw() == After(old(FullRaw()), Moves.DwarfHurl(old(FullRaw()), dwarf, target))
    {
      ghost var g := FullRaw();
      if Get(dwarf) != Dwarf || Get(target) != Troll {
        return Err(IllegalMove);
      }
      var clear := VerifyClear(dwarf, target);
      assert FullRaw() == g;
      if clear.Err? {
        return Err(clear.error);
      }
      RouteReachesEnd(dwarf, target);
      var dwarfLen := CountLine(dwarf, FromRoute(target, dwarf).value, Dwarf);
      assert FullRaw() == g;
      var dist := Max(Diff(dwarf, target));
      assert dwarfLen < dist ==> Moves.DwarfHurl(g, dwarf, target) == Err(LineTooShort(dist, dwarfLen));
      if dwarfLen < dist {
        return Err(LineTooShort(dist, dwarfLen));
      }
      Place(dwarf, Empty);
      Place(target, Dwarf);
      return Ok(());
    }

    /** The inner loop of `available_moves` for a dwarf on loc and one direction: empty squares
        are listed and passed; a troll is listed when its index is at most the line behind, and
        ends the ray; any other piece ends it. */
    method DwarfRayMoves(loc: Coord, dir: Direction, lineBehind: nat) returns (avail: seq<Coord>)
      requires Valid()
      ensures avail == DwarfScan(FullRaw(), Ray(loc, dir), 0, lineBehind)
    {
      ghost var g := FullRaw();
      ghost var ray := Ray(loc, dir);
      var cast := Cast(loc, dir);
      avail := [];
      var count: nat := 0;
      while true
        invariant cast.Valid() && cast.board == this && cast.start == loc && cast.dir == dir && cast.grid == g
        invariant count == cast.yielded <= MatchRun(g, ray, Empty)
        invariant avail == ray[..count]
        decreases |ray| - count
      {
        var item := cast.Next();
        if item.None? {
          DwarfScanRun(g, ray, 0, lineBehind, count);
          break;
        }
        var (poss, piece) := item.value;
        if piece != Empty {
          MatchRunStops(g, ray, Empty, count);
          DwarfScanRun(g, ray, 0, lineBehind, count);
          if piece == Troll && count <= lineBehind {
            avail := avail + [poss];
          }
          break;
        }
        MatchRunGrows(g, ray, Empty, count);
        PrefixGrows(ray, count);
        avail := avail + [poss];
        count := count + 1;
      }
    }

    /** The inner loop of `available_moves` for a troll on loc and one direction: the first
        square is skipped, then at most lineBehind squares are taken, listing empty ones up to
        the first that is not. */
    method TrollRayMoves(loc: Coord, dir: Direction, lineBehind: nat) returns (avail: seq<Coord>)
      requires Valid()
      ensures avail == TrollScan(FullRaw(), Rest(Ray(loc, dir)), lineBehind)
    {
      ghost var g := FullRaw();
      ghost var ray := Ray(loc, dir);
      var cast := Cast(loc, dir);
      var _ := cast.Next();
      ghost var skip := cast.yielded;
      ghost var rest := Rest(ray);
      RestFrom(ray, skip);
      avail := [];
      var taken: nat := 0;
      while taken < lineBehind
        invariant cast.Valid() && cast.board == this && cast.start == loc && cast.dir == dir && cast.grid == g
        invariant cast.yielded == skip + taken && rest == ray[skip..]
        invariant taken <= lineBehind && taken <= MatchRun(g, rest, Empty)
        invariant avail == rest[..taken]
        decreases lineBehind - taken
      {
        var item := cast.Next();
        if item.None? {
          break;
        }
        var (poss, piece) := item.value;
        assert poss == rest[taken] && piece == At(g, rest[taken]);
        if piece != Empty {
          MatchRunStops(g, rest, Empty, taken);
          break;
        }
        MatchRunGrows(g, rest, Empty, taken);
        PrefixGrows(rest, taken);
        avail := avail + [poss];
        taken := taken + 1;
      }
      TrollScanRun(g, rest, lineBehind, taken);
    }

    /** `available_moves`: for a dwarf or a troll, the listings of the eight directions one
        after the other, each scanned with the line of its own kind behind the piece; nothing for
        an empty square or the Thudstone. */
    method AvailableMoves(loc: Coord) returns (avail: seq<Coord>)
      requires Valid()
      ensures avail == Available.AvailableMoves(FullRaw(), loc)
    {
      ghost var g := FullRaw();
      var ds := All();
      avail := [];
      match Get(loc)
      case Dwarf =>
        for i := 0 to |ds|
          invariant FullRaw() == g
          invariant avail + DwarfMoves(g, loc, ds[i..]) == DwarfMoves(g, loc, ds)
        {
          var lineBehind := CountLine(loc, Opposite(ds[i]), Dwarf);
          assert FullRaw() == g;
          var m := DwarfRayMoves(loc, ds[i], lineBehind);
          assert FullRaw() == g;
          DwarfMovesFrom(g, loc, ds, i);
          AppendAssoc(avail, m, DwarfMoves(g, loc, ds[i + 1..]));
          avail := avail + m;
        }
        assert ds[|ds|..] == [];
      case Troll =>
        for i := 0 to |ds|
          invariant FullRaw() == g
          invariant avail + TrollMoves(g, loc, ds[i..]) == TrollMoves(g, loc, ds)
        {
          var behindLine := CountLine(loc, Opposite(ds[i]), Troll);
          assert FullRaw() == g;
          var m := TrollRayMoves(loc, ds[i], behindLine);
          assert FullRaw() == g;
          TrollMovesFrom(g, loc, ds, i);
          AppendAssoc(avail, m, TrollMoves(g, loc, ds[i + 1..]));
          avail := avail + m;
        }
        assert ds[|ds|..] == [];
      case _ =>
    }

    /** The counting loop of `winner` over one army: the lengths of the pieces' listings, added
        up. */
    method MovesOf(army: seq<Coord>) returns (total: nat)
      requires Valid()
      ensures total == MovesTotal(FullRaw(), army)
    {
      ghost var g := FullRaw();
      total := 0;
      for i := 0 to |army|
        invariant FullRaw() == g
        invariant total + MovesTotal(g, army[i..]) == MovesTotal(g, army)
      {
        var m := AvailableMoves(army[i]);
        assert FullRaw() == g;
        MovesTotalFrom(g, army, i);
        total := total + |m|;
      }
      assert army[|army|..] == [];
    }

    /** `winner`: the moves of each army counted; once either count is zero the scores decide,
        and otherwise the game goes on. */
    method Winner() returns (r: Option<Players.EndState>)
      requires Valid()
      ensures r == Available.Winner(FullRaw())
    {
      ghost var g := FullRaw();
      var dwarves := Army(Dwarf);
      var dwarfMoves := MovesOf(dwarves);
      var trolls := Army(Troll);
      var trollMoves := MovesOf(trolls);
      assert FullRaw() == g;
      if trollMoves == 0 || dwarfMoves == 0 {
        var scores := Score();
        if scores.0 > scores.1 {
          r := Some(Players.Won(Players.Dwarf));
        } else if scores.1 > scores.0 {
          r := Some(Players.Won(Players.Troll));
        } else {
          r := Some(Players.Draw);
        }
      } else {
        r := None;
      }
    }

    /** `score`: one point per dwarf and four per troll. */
    method Score() returns (s: (nat, nat))
      requires Valid()
      ensures s == Available.Score(FullRaw())
    {
      var dwarves := Army(Dwarf);
      var trolls := Army(Troll);
      s := (|dwarves|, |trolls| * 4);
    }

    /** `cast`: a ray iterator from loc in direction dir over this board. */
    method Cast(loc: Coord, dir: Direction) returns (cast: RayCast)
      requires Valid()
      ensures fresh(cast)
      ensures cast.Valid() && cast.board == this && cast.start == loc && cast.dir == dir
      ensures cast.grid == FullRaw() && cast.yielded == 0
    {
      cast := new RayCast(this, loc, dir);
    }

    /** `verify_clear`: walk the ray from src towards dest and report the first occupied square
        strictly between them; MathError when they are not aligned. */
    method VerifyClear(src: Coord, dest: Coord) returns (r: Result<Unit, ThudError>)
      requires Valid()
      ensures r == Lines.VerifyClear(FullRaw(), src, dest)
    {
      var route := FromRoute(src, dest);
      if route.Err? {
        return Err(route.error);
      }
      var dir := route.value;
      ghost var g := FullRaw();
      ghost var ray := Ray(src, dir);
      RayReaches(src, dest, dir);
      var cast := Cast(src, dir);
      ghost var k := 0;
      while true
        invariant cast.Valid() && cast.board == this && cast.start == src && cast.dir == dir && cast.grid == g
        invariant k == cast.yielded < Chebyshev(src, dest)
        invariant k <= MatchRun(g, ray, Empty)
        decreases |ray| - k
      {
        var item := cast.Next();
        if item.None? {
          assert false;
          break;
        }
        var (current, piece) := item.value;
        assert current == ray[k] && piece == At(g, ray[k]);
        if current == dest {
          RayAtTarget(src, dest, dir, k);
          break;
        }
        RayBeforeTarget(src, dest, dir, k);
        if piece != Empty {
          MatchRunStops(g, ray, Empty, k);
          ObstacleOnRay(g, src, dest, dir, k);
          return Err(Obstacle(current.x, current.y));
        }
        MatchRunGrows(g, ray, Empty, k);
        k := k + 1;
      }
      ClearOnRay(g, src, dest, dir);
      return Ok(());
    }

    /** `count_line`: the length of the run of `piece` that starts on `start` and goes on in
        direction `dir`; zero when `start` does not hold it. */
    method CountLine(start: Coord, dir: Direction, piece: Piece) returns (length: nat)
      requires Valid()
      ensures length == Lines.CountLine(FullRaw(), start, dir, piece)
    {
      if Get(start) != piece {
        CountLineOff(FullRaw(), start, dir, piece);
        return 0;
      }
      ghost var g := FullRaw();
      ghost var ray := Ray(start, dir);
      var cast := Cast(start, dir);
      var k: nat := 0;
      while true
        invariant cast.Valid() && cast.board == this && cast.start == start && cast.dir == dir && cast.grid == g
        invariant k == cast.yielded <= MatchRun(g, ray, piece)
        decreases |ray| - k
      {
        var item := cast.Next();
        if item.None? {
          break;
        }
        var (_, curPiece) := item.value;
        assert curPiece == At(g, ray[k]);
        if curPiece != piece {
          MatchRunStops(g, ray, piece, k);
          break;
        }
        MatchRunGrows(g, ray, piece, k);
        k := k + 1;
      }
      length := 1 + k;
      CountLineRun(g, start, dir, piece, k);
    }
  }

  /** `RayCast`: the iterator over the squares from a start in one direction, yielding each with
      the piece on it. `start`, `grid` and `yielded` are only there to say which square comes
      next and what it holds: the iterator borrows the board, so the board cannot change while
      it is alive. */
  class RayCast {
    const board: Board
    var nextPlace: Result<Coord, ThudError>
    const dir: Direction
    ghost const start: Coord
    ghost const grid: Grid
    ghost var yielded: nat

    ghost predicate Valid()
      reads this, board.squares
    {
      board.Valid() && board.FullRaw() == grid &&
      yielded <= |Ray(start, dir)| && nextPlace == Pending(start, dir, yielded)
    }

    /** `RayCast::new`: the next place is the first step from the start. */
    constructor (board: Board, start: Coord, dir: Direction)
      requires board.Valid()
      ensures Valid() && this.board == board && this.start == start && this.dir == dir
      ensures grid == board.FullRaw() && yielded == 0
    {
      RayStart(start, dir);
      this.board := board;
      this.nextPlace := Modify(dir, start);
      this.dir := dir;
      this.start := start;
      this.grid := board.FullRaw();
      this.yielded := 0;
    }

    /** `next`: the next square of the ray with its piece, then one step further; None once the
        ray has run off the board, and the iterator stays there. */
    method Next() returns (item: Option<(Coord, Piece)>)
      requires Valid()
      modifies this
      ensures Valid()
      ensures old(yielded) < |Ray(start, dir)| ==>
                yielded == old(yielded) + 1 &&
                item == Some((Ray(start, dir)[old(yielded)], At(grid, Ray(start, dir)[old(yielded)])))
      ensures old(yielded) == |Ray(start, dir)| ==> yielded == old(yielded) && item == None
    {
      if nextPlace.Ok? {
        var coord := nextPlace.value;
        var piece := board.Get(coord);
        RayNext(start, dir, yielded);
        nextPlace := Modify(dir, coord);
        yielded := yielded + 1;
        item := Some((coord, piece));
      } else {
        item := None;
      }
    }
  }
}

/** The eight compass directions, their unit steps, and the direction of a straight route. */
module Directions {
  import opened Types
  import opened Coords

  datatype Direction = Up | UpRight | Right | DownRight | Down | DownLeft | Left | UpLeft

  /** `modifier`: the unit step of a direction, (x, y) with Up increasing y. */
  function Modifier(d: Direction): (m: (int, int))
    ensures -1 <= m.0 <= 1 && -1 <= m.1 <= 1
    ensures m != (0, 0)
  {
    match d
    case Up => (0, 1)
    case UpRight => (1, 1)
    case Right => (1, 0)
    case DownRight => (1, -1)
    case Down => (0, -1)
    case DownLeft => (-1, -1)
    case Left => (-1, 0)
    case UpLeft => (-1, 1)
  }

  /** The eight modifiers are pairwise distinct. */
  lemma ModifierInjective(d: Direction, e: Direction)
    ensures Modifier(d) == Modifier(e) ==> d == e
  {
  }

  function Sign(n: int): (s: int)
    ensures s == 0 <==> n == 0
    ensures s == 1 <==> n > 0
    ensures s == -1 <==> n < 0
  {
    if n > 0 then 1 else if n < 0 then -1 else 0
  }

  function Abs(n: int): (a: nat)
    ensures a == n || a == -n
  {
    if n < 0 then -n else n
  }

  /** The square k steps from c in direction d, as an unchecked integer pair. */
  function Along(c: Pair, d: Direction, k: int): (r: (int, int))
    ensures r == (c.x + k * Modifier(d).0, c.y + k * Modifier(d).1)
  {
    match d
    case Up => (c.x, c.y + k)
    case UpRight => (c.x + k, c.y + k)
    case Right => (c.x + k, c.y)
    case DownRight => (c.x + k, c.y - k)
    case Down => (c.x, c.y - k)
    case DownLeft => (c.x - k, c.y - k)
    case Left => (c.x - k, c.y)
    case UpLeft => (c.x - k, c.y + k)
  }

  /** `obtain`, as written: equal points give Down, and the two anti-diagonals are labelled with
      the direction whose modifier points the other way. */
  function Obtain(start: Coord, end: Coord): (r: Result<Direction, string>)
    ensures r.Err? <==> start.x != end.x && start.y != end.y && Diff(start, end).x != Diff(start, end).y
  {
    var diff := Diff(start, end);
    if start.x == end.x then
      (if start.y < end.y then Ok(Up) else Ok(Down))
    else if start.y == end.y then
      (if start.x < end.x then Ok(Right) else Ok(Left))
    else if diff.x == diff.y then
      if start.x < end.x then
        (if start.y < end.y then Ok(UpRight) else Ok(UpLeft))
      else
        (if start.y < end.y then Ok(DownRight) else Ok(DownLeft))
    else
      Err("No straight path available")
  }

  /** The case table of `obtain` for orthogonal and rising/falling main-diagonal routes. */
  lemma ObtainCases(start: Coord, end: Coord)
    ensures start.x == end.x ==> Obtain(start, end) == Ok(if start.y < end.y then Up else Down)
    ensures start == end ==> Obtain(start, end) == Ok(Down)
    ensures start.y == end.y && start.x != end.x ==>
              Obtain(start, end) == Ok(if start.x < end.x then Right else Left)
    ensures start.x < end.x && start.y < end.y && end.x - start.x == end.y - start.y ==>
              Obtain(start, end) == Ok(UpRight)
    ensures start.x > end.x && start.y > end.y && start.x - end.x == start.y - end.y ==>
              Obtain(start, end) == Ok(DownLeft)
  {
  }

  /** `modify`: one step in a direction; fails (no wrap, no clamp) when the step leaves the board,
      including the steps below zero that would underflow an unsigned axis. */
  function Modify(d: Direction, c: Coord): (r: Result<Coord, ThudError>)
    ensures r.Ok? <==> InRegion(Along(c, d, 1).0, Along(c, d, 1).1)
    ensures r.Ok? ==> (r.value.x, r.value.y) == Along(c, d, 1)
    ensures r.Err? ==> r.error == MathError
  {
    var (dx, dy) := Modifier(d);
    var nx := c.x + dx;
    var ny := c.y + dy;
    if nx < 0 || ny < 0 then Err(MathError)
    else if InRegion(nx, ny) then Ok(Pair(nx, ny))
    else Err(MathError)
  }

  /** `opposite`: the direction with the negated modifier. */
  function Opposite(d: Direction): (o: Direction)
    ensures Modifier(o) == (-Modifier(d).0, -Modifier(d).1)
  {
    match d
    case Up => Down
    case UpRight => DownLeft
    case Right => Left
    case DownRight => UpLeft
    case Down => Up
    case DownLeft => UpRight
    case Left => Right
    case UpLeft => DownRight
  }

  lemma OppositeInvolutive(d: Direction)
    ensures Opposite(Opposite(d)) == d
    ensures Opposite(d) != d
  {
  }

  /** `all`: every direction once, in declaration order. */
  function All(): (ds: seq<Direction>)
    ensures |ds| == 8
    ensures forall d: Direction :: d in ds
    ensures forall i, j :: 0 <= i < j < |ds| ==> ds[i] != ds[j]
  {
    var ds := Compass;
    assert forall d: Direction :: d in ds by {
      forall d: Direction ensures d in ds {
        assert ds[Ordinal(d)] == d;
      }
    }
    ds
  }

  /** The directions in declaration order. */
  const Compass: seq<Direction> := [Up, UpRight, Right, DownRight, Down, DownLeft, Left, UpLeft]

  lemma AllIsCompass()
    ensures All() == Compass
  {
  }

  /** The position of a direction in declaration order. */
  function Ordinal(d: Direction): (i: nat)
    ensures i < 8
  {
    match d
    case Up => 0
    case UpRight => 1
    case Right => 2
    case DownRight => 3
    case Down => 4
    case DownLeft => 5
    case Left => 6
    case UpLeft => 7
  }

  /** The direction whose modifier is the given pair of signs. */
  function FromSigns(sx: int, sy: int): (d: Direction)
    requires -1 <= sx <= 1 && -1 <= sy <= 1 && (sx, sy) != (0, 0)
    ensures Modifier(d) == (sx, sy)
  {
    if sx == 0 then (if sy == 1 then Up else Down)
    else if sx == 1 then (if sy == 1 then UpRight else if sy == 0 then Right else DownRight)
    else (if sy == 1 then UpLeft else if sy == 0 then Left else DownLeft)
  }

  /** `from_route`: the direction from start toward end; MathError when the points are equal or
      not on one orthogonal or 45-degree line. */
  function FromRoute(start: Coord, end: Coord): (r: Result<Direction, ThudError>)
    ensures r.Ok? <==> (start != end &&
              (start.x == end.x || start.y == end.y || Diff(start, end).x == Diff(start, end).y))
    ensures r.Ok? ==> Modifier(r.value) == (Sign(end.x - start.x), Sign(end.y - start.y))
    ensures r.Err? ==> r.error == MathError
  {
    var dx := end.x - start.x;
    var dy := end.y - start.y;
    if start == end || (dx != 0 && dy != 0 && Abs(dx) != Abs(dy)) then Err(MathError)
    else Ok(FromSigns(Sign(dx), Sign(dy)))
  }

  /** Following the route direction for the Chebyshev distance lands on the end square. */
  lemma RouteReachesEnd(start: Coord, end: Coord)
    requires FromRoute(start, end).Ok?
    ensures Along(start, FromRoute(start, end).value, Chebyshev(start, end)) == (end.x, end.y)
    ensures FromRoute(end, start) == Ok(Opposite(FromRoute(start, end).value))
  {
    var d := FromRoute(start, end).value;
    RouteAlong(start, end, d);
    RouteReverse(start, end, d);
  }

  /** The route's direction, followed for the Chebyshev distance, lands on the end square. */
  lemma RouteAlong(start: Coord, end: Coord, d: Direction)
    requires FromRoute(start, end) == Ok(d)
    ensures Along(start, d, Chebyshev(start, end)) == (end.x, end.y)
  {
    match d
    case Up => {}
    case UpRight => {}
    case Right => {}
    case DownRight => {}
    case Down => {}
    case DownLeft => {}
    case Left => {}
    case UpLeft => {}
  }

  /** The route back runs in the opposite direction. */
  lemma RouteReverse(start: Coord, end: Coord, d: Direction)
    requires FromRoute(start, end) == Ok(d)
    ensures FromRoute(end, start) == Ok(Opposite(d))
  {
    ModifierInjective(FromRoute(end, start).value, Opposite(d));
  }

  /** One step in d is a route of length 1 in direction d, and stepping back returns. */
  lemma ModifyRoute(d: Direction, c: Coord)
    requires Modify(d, c).Ok?
    ensures FromRoute(c, Modify(d, c).value) == Ok(d)
    ensures Chebyshev(c, Modify(d, c).value) == 1
    ensures Modify(Opposite(d), Modify(d, c).value) == Ok(c)
  {
    var n := Modify(d, c).value;
    AlongRoute(c, n, d, 1);
    StepBack(c, n, d);
  }

  /** n steps in d, n >= 1, are a route in direction d of Chebyshev length n. */
  lemma AlongRoute(c: Coord, e: Coord, d: Direction, n: int)
    requires n >= 1 && (e.x, e.y) == Along(c, d, n)
    ensures FromRoute(c, e) == Ok(d) && Chebyshev(c, e) == n
  {
    match d
    case Up => {}
    case UpRight => {}
    case Right => {}
    case DownRight => {}
    case Down => {}
    case DownLeft => {}
    case Left => {}
    case UpLeft => {}
  }

  /** Stepping back from a unit step returns to the square it started from. */
  lemma StepBack(c: Coord, n: Coord, d: Direction)
    requires (n.x, n.y) == Along(c, d, 1)
    ensures Modify(Opposite(d), n) == Ok(c)
  {
    var o := Opposite(d);
    assert n.x == c.x + Modifier(d).0 && n.y == c.y + Modifier(d).1;
    assert Along(n, o, 1) == (c.x, c.y);
    assert InRegion(c.x, c.y);
    var r := Modify(o, n);
    assert r.Ok? && (r.value.x, r.value.y) == (c.x, c.y);
  }

  /** `obtain` agrees with `from_route` on orthogonal and rising/falling diagonal routes, and names
      the opposite direction on the two anti-diagonals; the test in the board module that hurls
      along an anti-diagonal therefore needs `from_route`. */
  lemma ObtainVersusFromRoute(start: Coord, end: Coord)
    requires FromRoute(start, end).Ok?
    ensures var anti := (start.x < end.x && start.y > end.y) || (start.x > end.x && start.y < end.y);
            Obtain(start, end) == Ok(if anti then Opposite(FromRoute(start, end).value)
                                     else FromRoute(start, end).value)
  {
    var d := FromRoute(start, end).value;
    var o := Obtain(start, end).value;
    var anti := (start.x < end.x && start.y > end.y) || (start.x > end.x && start.y < end.y);
    if anti {
      ModifierInjective(o, Opposite(d));
    } else {
      ModifierInjective(o, d);
    }
  }
}

/** The squares a `RayCast` visits, as a value: every square one step, two steps, ... from the
    origin in one direction, up to the edge of the region. Pieces play no part in it. */
module Rays {
  import opened Types
  import opened Coords
  import opened Directions
  import opened Pieces
  import opened Grids

  /** How far the bounding 15x15 square extends from c along the axes that d moves on. */
  function Room(c: Coord, d: Direction): nat
  {
    var m := Modifier(d);
    (if m.0 == 1 then 14 - c.x else if m.0 == -1 then c.x else 0) +
    (if m.1 == 1 then 14 - c.y else if m.1 == -1 then c.y else 0)
  }

  /** One step moves k + 1 steps from c to k steps from the next square, and uses up room. */
  lemma AlongStep(c: Coord, n: Coord, d: Direction)
    requires (n.x, n.y) == Along(c, d, 1)
    ensures forall k :: Along(n, d, k) == Along(c, d, k + 1)
    ensures Room(n, d) < Room(c, d)
  {
    match d
    case Up =>
    case UpRight =>
    case Right =>
    case DownRight =>
    case Down =>
    case DownLeft =>
    case Left =>
    case UpLeft =>
  }

  /** The squares `RayCast::new(board, c, d)` yields, in order: `modify` applied again and again
      until it fails. */
  function Ray(c: Coord, d: Direction): seq<Coord>
    decreases Room(c, d)
  {
    match Modify(d, c)
    case Err(_) => []
    case Ok(n) =>
      AlongStep(c, n, d);
      [n] + Ray(n, d)
  }

  /** The k-th square of the ray (from 0) is k + 1 steps from c, and the step after the last
      square leaves the region. */
  lemma {:induction false} RaySteps(c: Coord, d: Direction)
    ensures forall k :: 0 <= k < |Ray(c, d)| ==> (Ray(c, d)[k].x, Ray(c, d)[k].y) == Along(c, d, k + 1)
    ensures !InRegion(Along(c, d, |Ray(c, d)| + 1).0, Along(c, d, |Ray(c, d)| + 1).1)
    decreases Room(c, d)
  {
    match Modify(d, c)
    case Err(_) =>
    case Ok(n) =>
      AlongStep(c, n, d);
      RaySteps(n, d);
      var t := Ray(n, d);
      var r := Ray(c, d);
      assert r == [n] + t;
      assert Along(c, d, |r| + 1) == Along(n, d, |t| + 1);
      forall k | 0 <= k < |r| ensures (r[k].x, r[k].y) == Along(c, d, k + 1) {
        if k > 0 {
          assert r[k] == t[k - 1];
          assert (t[k - 1].x, t[k - 1].y) == Along(n, d, k);
        }
      }
  }

  /** The region is convex: once a ray has left it, it never comes back. */
  lemma Convex(c: Coord, d: Direction, j: int, k: int)
    requires 0 <= j <= k
    requires !InRegion(Along(c, d, j).0, Along(c, d, j).1)
    ensures !InRegion(Along(c, d, k).0, Along(c, d, k).1)
  {
  }

  /** The ray holds exactly the squares of the half-line from c that lie in the region, nearest
      first: the k-th element (from 0) is k + 1 steps away, and nothing beyond the last is. */
  lemma RayExact(c: Coord, d: Direction, k: int)
    requires k >= 1
    ensures k <= |Ray(c, d)| <==> InRegion(Along(c, d, k).0, Along(c, d, k).1)
  {
    RaySteps(c, d);
    var r := Ray(c, d);
    if k > |r| {
      Convex(c, d, |r| + 1, k);
    } else {
      assert (r[k - 1].x, r[k - 1].y) == Along(c, d, k);
    }
  }

  /** No ray has more than 14 squares. */
  lemma RayLength(c: Coord, d: Direction)
    ensures |Ray(c, d)| <= 14
  {
    RayExact(c, d, 15);
  }

  /** Every square of the ray lies in direction d from c, at Chebyshev distance equal to its
      position plus one. */
  lemma RayRoute(c: Coord, d: Direction, k: nat)
    requires k < |Ray(c, d)|
    ensures FromRoute(c, Ray(c, d)[k]) == Ok(d)
    ensures Chebyshev(c, Ray(c, d)[k]) == k + 1
  {
    RaySteps(c, d);
    AlongRoute(c, Ray(c, d)[k], d, k + 1);
  }

  /** Conversely, a square lying in direction d from c appears on the ray at the position its
      distance gives, and no earlier square of the ray equals it. */
  lemma RayThrough(src: Coord, dst: Coord, d: Direction)
    requires FromRoute(src, dst) == Ok(d)
    ensures 1 <= Chebyshev(src, dst) <= |Ray(src, d)|
    ensures Ray(src, d)[Chebyshev(src, dst) - 1] == dst
    ensures forall k :: 0 <= k < Chebyshev(src, dst) - 1 ==> Ray(src, d)[k] != dst
  {
    var n := Chebyshev(src, dst);
    RouteReachesEnd(src, dst);
    RayExact(src, d, n);
    RaySteps(src, d);
    var r := Ray(src, d);
    forall k | 0 <= k < n - 1 ensures r[k] != dst {
      RayRoute(src, d, k);
    }
  }

  /** The ray towards an aligned square is long enough to reach it. */
  lemma RayReaches(src: Coord, dst: Coord, d: Direction)
    requires FromRoute(src, dst) == Ok(d)
    ensures 1 <= Chebyshev(src, dst) <= |Ray(src, d)|
  {
    RayThrough(src, dst, d);
  }

  /** A square of the ray before the one at the distance of dst, and other than dst, is more than
      one square short of it. */
  lemma RayBeforeTarget(src: Coord, dst: Coord, d: Direction, k: nat)
    requires FromRoute(src, dst) == Ok(d) && k < Chebyshev(src, dst) <= |Ray(src, d)|
    requires Ray(src, d)[k] != dst
    ensures k + 1 < Chebyshev(src, dst)
  {
    RayThrough(src, dst, d);
  }

  /** dst appears on the ray towards it only at the position its distance gives. */
  lemma RayAtTarget(src: Coord, dst: Coord, d: Direction, k: nat)
    requires FromRoute(src, dst) == Ok(d) && k < |Ray(src, d)| && Ray(src, d)[k] == dst
    ensures k == Chebyshev(src, dst) - 1
  {
    RayRoute(src, d, k);
  }

  /** The square k + 1 steps along is the k-th square of the ray. */
  lemma RayAt(c: Coord, d: Direction, k: nat, e: Coord)
    requires (e.x, e.y) == Along(c, d, k + 1)
    ensures k < |Ray(c, d)| && Ray(c, d)[k] == e
  {
    RayExact(c, d, k + 1);
    RaySteps(c, d);
    var r := Ray(c, d);
    assert (r[k].x, r[k].y) == Along(c, d, k + 1);
  }

  /** The first square of a ray is the first step. */
  lemma RayFirst(c: Coord, d: Direction)
    requires Modify(d, c).Ok?
    ensures |Ray(c, d)| >= 1 && Ray(c, d)[0] == Modify(d, c).value
  {
  }

  /** Sequences with the first square removed: the ray from the next square. */
  lemma RayTail(c: Coord, d: Direction)
    requires Modify(d, c).Ok?
    ensures Ray(c, d) == [Modify(d, c).value] + Ray(Modify(d, c).value, d)
  {
  }

  /** A ray is n squares long when the n-th square lies in the region and the next does not. */
  lemma RayLengthIs(c: Coord, d: Direction, n: nat)
    requires n == 0 || InRegion(Along(c, d, n).0, Along(c, d, n).1)
    requires !InRegion(Along(c, d, n + 1).0, Along(c, d, n + 1).1)
    ensures |Ray(c, d)| == n
  {
    RayExact(c, d, n + 1);
    if n > 0 {
      RayExact(c, d, n);
    }
  }

  /** What a cast that has yielded k squares holds as its next place: the (k + 1)-th square of
      the ray, or the error `modify` gave once the ray ran off the region. */
  function Pending(c: Coord, d: Direction, k: nat): Result<Coord, ThudError>
  {
    var r := Ray(c, d);
    if k < |r| then Ok(r[k]) else Err(MathError)
  }

  /** A fresh cast holds the first step from its origin, as `RayCast::new` computes it. */
  lemma RayStart(c: Coord, d: Direction)
    ensures Modify(d, c) == Pending(c, d, 0)
  {
    if Modify(d, c).Ok? {
      RayFirst(c, d);
    }
  }

  /** One step on from the square k steps along is k + 1 steps along. */
  lemma AlongFrom(c: Coord, e: Coord, d: Direction, k: int)
    requires (e.x, e.y) == Along(c, d, k)
    ensures Along(e, d, 1) == Along(c, d, k + 1)
  {
    match d
    case Up =>
    case UpRight =>
    case Right =>
    case DownRight =>
    case Down =>
    case DownLeft =>
    case Left =>
    case UpLeft =>
  }

  /** Stepping once more from the k-th square of a ray gives the next place: `next` keeps the cast
      in step with the ray. */
  lemma RayNext(c: Coord, d: Direction, k: nat)
    requires k < |Ray(c, d)|
    ensures Modify(d, Ray(c, d)[k]) == Pending(c, d, k + 1)
  {
    RaySteps(c, d);
    var r := Ray(c, d);
    var e := r[k];
    assert (e.x, e.y) == Along(c, d, k + 1);
    AlongFrom(c, e, d, k + 1);
    RayExact(c, d, k + 2);
    var m := Modify(d, e);
    if k + 1 < |r| {
      assert (r[k + 1].x, r[k + 1].y) == Along(c, d, k + 2);
      assert m.Ok? && m.value == r[k + 1];
    }
  }

  /** The lengths checked by the cast tests. */
  lemma CastLengthUp()
    ensures |Ray(Pair(7, 6), Up)| == 8
  {
    RayLengthIs(Pair(7, 6), Up, 8);
  }

  lemma CastLengthDown()
    ensures |Ray(Pair(5, 0), Down)| == 0
  {
    RayLengthIs(Pair(5, 0), Down, 0);
  }

  lemma CastLengthUpLeft()
    ensures |Ray(Pair(3, 6), UpLeft)| == 3
  {
    RayLengthIs(Pair(3, 6), UpLeft, 3);
  }

  lemma CastLengthDownLeft()
    ensures |Ray(Pair(14, 9), DownLeft)| == 9
  {
    RayLengthIs(Pair(14, 9), DownLeft, 9);
  }

  /** Pieces do not stop a ray: from (7, 6) upwards it passes (7, 7) and goes on to the edge. On the
      default board with the Thudstone placed on (7, 7), the first square yields the Thudstone and
      every later one yields Empty. */
  lemma CastUpFromBelowCentre()
    ensures Ray(Pair(7, 6), Up) ==
            [Pair(7, 7), Pair(7, 8), Pair(7, 9), Pair(7, 10), Pair(7, 11), Pair(7, 12), Pair(7, 13), Pair(7, 14)]
    ensures At(Placed(EmptyGrid(), Pair(7, 7), Thudstone), Ray(Pair(7, 6), Up)[0]) == Thudstone
    ensures forall k | 1 <= k < |Ray(Pair(7, 6), Up)| ::
              At(Placed(EmptyGrid(), Pair(7, 7), Thudstone), Ray(Pair(7, 6), Up)[k]) == Empty
  {
    var c := Pair(7, 6);
    RayLengthIs(c, Up, 8);
    RaySteps(c, Up);
    var r := Ray(c, Up);
    forall k | 0 <= k < 8 ensures r[k] == Pair(7, 7 + k) {
      assert (r[k].x, r[k].y) == Along(c, Up, k + 1);
    }
  }
}

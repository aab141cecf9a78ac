/** Points, straight moves and axis-aligned boxes: the vocabulary in which both keep-out plugins are specified.
    Nothing here computes a clip; the clipping loops are proved against these definitions. */
module Geometry {

  const N_AXIS: nat := 5
  const X: nat := 0
  const Y: nat := 1
  const Z: nat := 2

  /** A machine position: one coordinate per axis. */
  type Point = p: seq<real> | |p| == N_AXIS witness [0.0, 0.0, 0.0, 0.0, 0.0]

  /** A closed box over the first `dims` axes; the remaining axes are unconstrained. */
  datatype Box = Box(dims: nat, lo: seq<real>, hi: seq<real>) {
    predicate Valid() {
      (dims == 2 || dims == 3) && |lo| == 3 && |hi| == 3
    }
  }

  /** Coordinate i of the point a fraction t along the move from p0 to p1. */
  function Coord(p0: Point, p1: Point, t: real, i: nat): real
    requires i < N_AXIS
  {
    p0[i] + t * (p1[i] - p0[i])
  }

  /** The point a fraction t along the move. */
  function At(p0: Point, p1: Point, t: real): Point {
    [Coord(p0, p1, t, 0), Coord(p0, p1, t, 1), Coord(p0, p1, t, 2), Coord(p0, p1, t, 3), Coord(p0, p1, t, 4)]
  }

  predicate InBox(b: Box, p: Point)
    requires b.Valid()
  {
    && b.lo[0] <= p[0] <= b.hi[0]
    && b.lo[1] <= p[1] <= b.hi[1]
    && (b.dims == 3 ==> b.lo[2] <= p[2] <= b.hi[2])
  }

  /** Parameter t of the move lies in the box. */
  predicate InsideAt(b: Box, p0: Point, p1: Point, t: real)
    requires b.Valid()
  {
    InBox(b, At(p0, p1, t))
  }

  /** The move stays in the box over the whole parameter interval [a, c], which has positive length. */
  ghost predicate Dwells(b: Box, p0: Point, p1: Point, a: real, c: real)
    requires b.Valid()
  {
    0.0 <= a < c <= 1.0 && forall t: real :: a <= t <= c ==> InsideAt(b, p0, p1, t)
  }

  /** The move spends more than an instant in the box. */
  ghost predicate Crosses(b: Box, p0: Point, p1: Point)
    requires b.Valid()
  {
    exists a: real, c: real :: Dwells(b, p0, p1, a, c)
  }

  /** t is the first parameter at which the move, started outside, is in the box. */
  ghost predicate EntersAt(b: Box, p0: Point, p1: Point, t: real)
    requires b.Valid()
  {
    0.0 < t <= 1.0 && InsideAt(b, p0, p1, t) && forall s: real :: 0.0 <= s < t ==> !InsideAt(b, p0, p1, s)
  }

  ghost predicate Enters(b: Box, p0: Point, p1: Point)
    requires b.Valid()
  {
    exists t: real :: EntersAt(b, p0, p1, t)
  }

  /** The first-entry parameter is unique, so it may be named. */
  ghost function EntryTime(b: Box, p0: Point, p1: Point): (t: real)
    requires b.Valid() && Enters(b, p0, p1)
    ensures EntersAt(b, p0, p1, t)
  {
    var t :| EntersAt(b, p0, p1, t);
    t
  }

  lemma EntryTimeUnique(b: Box, p0: Point, p1: Point, t: real)
    requires b.Valid() && EntersAt(b, p0, p1, t)
    ensures Enters(b, p0, p1) && t == EntryTime(b, p0, p1)
  {
    var u := EntryTime(b, p0, p1);
    assert !(u < t) && !(t < u);
  }

  /** q agrees with the point a fraction t along p0 -> p1 on the axes the box constrains. */
  predicate ShortensOn(dims: nat, p0: Point, p1: Point, q: Point, t: real)
    requires dims <= N_AXIS
  {
    0.0 <= t <= 1.0 && forall i :: 0 <= i < dims ==> q[i] == Coord(p0, p1, t, i)
  }

  lemma MulOrder(a: real, c: real, t: real)
    requires a <= c && 0.0 <= t
    ensures a * t <= c * t
    ensures a < c && 0.0 < t ==> a * t < c * t
  {
  }

  /** Scaling an interval of [0, 1] by t in (0, 1] keeps its order, and every point of the image has a preimage. */
  lemma ScaledInterval(a: real, c: real, t: real)
    requires 0.0 <= a < c <= 1.0 && 0.0 < t <= 1.0
    ensures 0.0 <= a * t < c * t <= 1.0
  {
    MulOrder(0.0, a, t);
    MulOrder(a, c, t);
    MulOrder(c, 1.0, t);
    assert c * t <= 1.0 * t == t;
  }

  lemma Preimage(a: real, c: real, t: real, s: real) returns (u: real)
    requires 0.0 < t && a * t <= s <= c * t
    ensures a <= u <= c && u * t == s
  {
    u := s / t;
    assert u * t == s;
    if u < a { MulOrder(u, a, t); }
    if c < u { MulOrder(c, u, t); }
  }

  /** Walking a fraction s of the shortened move is walking s*t of the original one. */
  lemma ShortenedCoord(p0: Point, p1: Point, q: Point, t: real, s: real, i: nat)
    requires i < N_AXIS && q[i] == Coord(p0, p1, t, i)
    ensures Coord(p0, q, s, i) == Coord(p0, p1, s * t, i)
  {
    var d := p1[i] - p0[i];
    assert q[i] - p0[i] == t * d;
    assert s * (t * d) == (s * t) * d;
  }

  lemma ShortenedInside(b: Box, p0: Point, p1: Point, q: Point, t: real, s: real)
    requires b.Valid() && ShortensOn(b.dims, p0, p1, q, t)
    ensures InsideAt(b, p0, q, s) <==> InsideAt(b, p0, p1, s * t)
  {
    forall i | 0 <= i < b.dims ensures Coord(p0, q, s, i) == Coord(p0, p1, s * t, i) {
      ShortenedCoord(p0, p1, q, t, s, i);
    }
    assert Coord(p0, q, s, 0) == Coord(p0, p1, s * t, 0);
    assert Coord(p0, q, s, 1) == Coord(p0, p1, s * t, 1);
    assert b.dims == 3 ==> Coord(p0, q, s, 2) == Coord(p0, p1, s * t, 2);
  }

  /** A shortened move crosses nothing that the original did not, unless it has shrunk to a point. */
  lemma {:induction false} ShortenedCrosses(b: Box, p0: Point, p1: Point, q: Point, t: real)
    requires b.Valid() && ShortensOn(b.dims, p0, p1, q, t) && 0.0 < t
    requires Crosses(b, p0, q)
    ensures Crosses(b, p0, p1)
  {
    var a, c :| Dwells(b, p0, q, a, c);
    ScaledInterval(a, c, t);
    forall s: real | a * t <= s <= c * t ensures InsideAt(b, p0, p1, s) {
      var u := Preimage(a, c, t, s);
      ShortenedInside(b, p0, p1, q, t, u);
    }
    assert Dwells(b, p0, p1, a * t, c * t);
  }

  /** Stopping at the first entry of an outer box leaves any box within it uncrossed. */
  lemma EntryLeavesInnerUncrossed(outer: Box, inner: Box, p0: Point, p1: Point, q: Point, t: real)
    requires outer.Valid() && inner.Valid() && outer.dims == inner.dims
    requires forall p: Point :: InBox(inner, p) ==> InBox(outer, p)
    requires EntersAt(outer, p0, p1, t) && ShortensOn(outer.dims, p0, p1, q, t)
    ensures !Crosses(inner, p0, q)
  {
    if Crosses(inner, p0, q) {
      var a, c :| Dwells(inner, p0, q, a, c);
      MulOrder(0.0, a, t);
      MulOrder(a, 1.0, t);
      assert 0.0 <= a * t < t by { MulOrder(a, c, t); MulOrder(c, 1.0, t); }
      assert InsideAt(inner, p0, q, a);
      ShortenedInside(outer, p0, p1, q, t, a);
    }
  }
}

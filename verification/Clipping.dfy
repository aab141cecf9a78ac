/** What a Liang-Barsky pass knows about a move: the parameters that satisfy the half-plane constraints
    p[k] * t <= q[k] handled so far form one interval. Shared by the clipping loops of both keep-out plugins. */
module Clipping {
  import opened Geometry

  predicate Below(p: real, q: real, t: real) {
    p * t <= q
  }

  ghost predicate Feasible(p: seq<real>, q: seq<real>, n: nat, t: real)
    requires n <= |p| == |q|
  {
    forall k :: 0 <= k < n ==> Below(p[k], q[k], t)
  }

  /** [t0, t1] is exactly the part of [0, 1] that meets the first n constraints. */
  ghost predicate Window(p: seq<real>, q: seq<real>, n: nat, t0: real, t1: real)
    requires n <= |p| == |q|
  {
    0.0 <= t0 <= t1 <= 1.0 && forall t: real :: 0.0 <= t <= 1.0 ==> (Feasible(p, q, n, t) <==> t0 <= t <= t1)
  }

  ghost predicate Infeasible(p: seq<real>, q: seq<real>)
    requires |p| == |q|
  {
    forall t: real :: 0.0 <= t <= 1.0 ==> !Feasible(p, q, |p|, t)
  }

  lemma HalfLine(p: real, q: real, t: real)
    requires p != 0.0
    ensures p < 0.0 ==> (Below(p, q, t) <==> q / p <= t)
    ensures p > 0.0 ==> (Below(p, q, t) <==> t <= q / p)
  {
    assert p * (q / p) == q;
    if p < 0.0 {
      if t < q / p { MulOrder(t, q / p, -p); } else { MulOrder(q / p, t, -p); }
    } else {
      if t < q / p { MulOrder(t, q / p, p); } else { MulOrder(q / p, t, p); }
    }
  }

  /** A move that does not change along an axis either always or never meets that axis' constraint. */
  lemma FlatCut(p: seq<real>, q: seq<real>, n: nat, t0: real, t1: real)
    requires n < |p| == |q| && p[n] == 0.0 && Window(p, q, n, t0, t1)
    ensures if q[n] < 0.0 then Infeasible(p, q) else Window(p, q, n + 1, t0, t1)
  {
    forall t: real | 0.0 <= t <= 1.0
      ensures Feasible(p, q, |p|, t) ==> Feasible(p, q, n + 1, t)
      ensures Feasible(p, q, n + 1, t) <==> Feasible(p, q, n, t) && q[n] >= 0.0
    {
      FeasibleStep(p, q, n, t);
    }
  }

  /** The first n + 1 constraints are the first n and the last of them. */
  lemma FeasibleStep(p: seq<real>, q: seq<real>, n: nat, t: real)
    requires n < |p| == |q|
    ensures Feasible(p, q, n + 1, t) <==> Feasible(p, q, n, t) && Below(p[n], q[n], t)
    ensures Feasible(p, q, |p|, t) ==> Feasible(p, q, n + 1, t)
  {
    assert Feasible(p, q, n + 1, t) ==> Below(p[n], q[n], t);
  }

  lemma CutLeft(p: seq<real>, q: seq<real>, n: nat, t0: real, t1: real)
    requires n < |p| == |q| && p[n] < 0.0 && Window(p, q, n, t0, t1)
    ensures var t := q[n] / p[n]; if t > t1 then Infeasible(p, q) else Window(p, q, n + 1, if t > t0 then t else t0, t1)
  {
    var u := q[n] / p[n];
    forall t: real | 0.0 <= t <= 1.0
      ensures Feasible(p, q, |p|, t) ==> Feasible(p, q, n + 1, t)
      ensures Feasible(p, q, n + 1, t) <==> t0 <= t <= t1 && u <= t
    {
      HalfLine(p[n], q[n], t);
      FeasibleStep(p, q, n, t);
    }
  }

  lemma CutRight(p: seq<real>, q: seq<real>, n: nat, t0: real, t1: real)
    requires n < |p| == |q| && p[n] > 0.0 && Window(p, q, n, t0, t1)
    ensures var t := q[n] / p[n]; if t < t0 then Infeasible(p, q) else Window(p, q, n + 1, t0, if t < t1 then t else t1)
  {
    var u := q[n] / p[n];
    forall t: real | 0.0 <= t <= 1.0
      ensures Feasible(p, q, |p|, t) ==> Feasible(p, q, n + 1, t)
      ensures Feasible(p, q, n + 1, t) <==> t0 <= t <= t1 && t <= u
    {
      HalfLine(p[n], q[n], t);
      FeasibleStep(p, q, n, t);
    }
  }

  /** One constraint with nonzero slope cuts the window from the left or from the right, or empties it. */
  lemma Cut(p: seq<real>, q: seq<real>, n: nat, t0: real, t1: real)
    requires n < |p| == |q| && p[n] != 0.0 && Window(p, q, n, t0, t1)
    ensures var t := q[n] / p[n];
      if p[n] < 0.0 then
        if t > t1 then Infeasible(p, q) else Window(p, q, n + 1, if t > t0 then t else t0, t1)
      else
        if t < t0 then Infeasible(p, q) else Window(p, q, n + 1, t0, if t < t1 then t else t1)
  {
    if p[n] < 0.0 {
      CutLeft(p, q, n, t0, t1);
    } else {
      CutRight(p, q, n, t0, t1);
    }
  }

  /** If any parameter meets all constraints, the pass runs to its end: the set of them is an interval. */
  lemma {:induction false} WindowExists(p: seq<real>, q: seq<real>, n: nat, t: real) returns (t0: real, t1: real)
    requires n <= |p| == |q| && 0.0 <= t <= 1.0 && Feasible(p, q, |p|, t)
    ensures Window(p, q, n, t0, t1)
  {
    if n == 0 {
      t0, t1 := 0.0, 1.0;
    } else {
      t0, t1 := WindowExists(p, q, n - 1, t);
      if p[n - 1] == 0.0 {
        FlatCut(p, q, n - 1, t0, t1);
      } else {
        Cut(p, q, n - 1, t0, t1);
        var u := q[n - 1] / p[n - 1];
        if p[n - 1] < 0.0 {
          t0 := if u > t0 then u else t0;
        } else {
          t1 := if u < t1 then u else t1;
        }
      }
    }
  }

  /** Slopes and offsets of the constraints "stay in b" along p0 -> p1, lower bound before upper bound, axis by axis. */
  function Slopes(b: Box, p0: Point, p1: Point): (p: seq<real>)
    requires b.Valid()
    ensures |p| == 2 * b.dims
  {
    var d0, d1, d2 := p1[0] - p0[0], p1[1] - p0[1], p1[2] - p0[2];
    [-d0, d0, -d1, d1] + if b.dims == 3 then [-d2, d2] else []
  }

  function Offsets(b: Box, p0: Point): (q: seq<real>)
    requires b.Valid()
    ensures |q| == 2 * b.dims
  {
    [p0[0] - b.lo[0], b.hi[0] - p0[0], p0[1] - b.lo[1], b.hi[1] - p0[1]]
    + if b.dims == 3 then [p0[2] - b.lo[2], b.hi[2] - p0[2]] else []
  }

  lemma SlabMeans(lo: real, hi: real, p0: Point, p1: Point, t: real, i: nat)
    requires i < N_AXIS
    ensures Below(-(p1[i] - p0[i]), p0[i] - lo, t) <==> lo <= Coord(p0, p1, t, i)
    ensures Below(p1[i] - p0[i], hi - p0[i], t) <==> Coord(p0, p1, t, i) <= hi
  {
    var d := p1[i] - p0[i];
    assert (-d) * t == -(t * d) && d * t == t * d;
  }

  lemma ConstraintsMeanInside(b: Box, p0: Point, p1: Point, t: real)
    requires b.Valid()
    ensures Feasible(Slopes(b, p0, p1), Offsets(b, p0), 2 * b.dims, t) <==> InsideAt(b, p0, p1, t)
  {
    var p, q := Slopes(b, p0, p1), Offsets(b, p0);
    SlabMeans(b.lo[0], b.hi[0], p0, p1, t, 0);
    SlabMeans(b.lo[1], b.hi[1], p0, p1, t, 1);
    SlabMeans(b.lo[2], b.hi[2], p0, p1, t, 2);
    assert Feasible(p, q, 2 * b.dims, t) ==> Below(p[0], q[0], t) && Below(p[1], q[1], t) && Below(p[2], q[2], t) && Below(p[3], q[3], t);
    assert b.dims == 3 && Feasible(p, q, 2 * b.dims, t) ==> Below(p[4], q[4], t) && Below(p[5], q[5], t);
  }

  /** A finished pass answers both questions asked of it: the move crosses the box iff the window has positive length,
      and it enters from outside iff the window starts after 0, namely at its left end. */
  lemma WindowDecides(b: Box, p0: Point, p1: Point, t0: real, t1: real)
    requires b.Valid() && Window(Slopes(b, p0, p1), Offsets(b, p0), 2 * b.dims, t0, t1)
    ensures Crosses(b, p0, p1) <==> t0 < t1
    ensures Enters(b, p0, p1) <==> t0 > 0.0
    ensures t0 > 0.0 ==> EntryTime(b, p0, p1) == t0
  {
    forall t: real | 0.0 <= t <= 1.0 ensures InsideAt(b, p0, p1, t) <==> t0 <= t <= t1 {
      ConstraintsMeanInside(b, p0, p1, t);
    }
    if t0 < t1 {
      assert Dwells(b, p0, p1, t0, t1);
    }
    if Crosses(b, p0, p1) {
      var a, c :| Dwells(b, p0, p1, a, c);
      assert InsideAt(b, p0, p1, a) && InsideAt(b, p0, p1, c);
    }
    if t0 > 0.0 {
      assert EntersAt(b, p0, p1, t0);
      EntryTimeUnique(b, p0, p1, t0);
    }
    if Enters(b, p0, p1) {
      assert !InsideAt(b, p0, p1, 0.0);
    }
  }

  lemma InfeasibleDecides(b: Box, p0: Point, p1: Point)
    requires b.Valid() && Infeasible(Slopes(b, p0, p1), Offsets(b, p0))
    ensures !Crosses(b, p0, p1) && !Enters(b, p0, p1)
    ensures forall t: real :: 0.0 <= t <= 1.0 ==> !InsideAt(b, p0, p1, t)
  {
    forall t: real | 0.0 <= t <= 1.0 ensures !InsideAt(b, p0, p1, t) {
      ConstraintsMeanInside(b, p0, p1, t);
    }
    forall a: real, c: real ensures !Dwells(b, p0, p1, a, c) {
      if 0.0 <= a < c <= 1.0 {
        assert !InsideAt(b, p0, p1, a);
      }
    }
  }
}

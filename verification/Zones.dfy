/** Exclusion zones and the two geometric questions the zone plugin asks of a straight move:
    does it cross the zone (tolerance-shrunk), and where does it first touch it (full size)? */
module Zones {
  import opened Geometry
  import opened Clipping

  const EZ_MAX_ZONES: nat := 16
  const TOLERANCE: real := 0.5

  /** The permission byte: bits 0..3 are allow_gcode, allow_jog, allow_toolchange, enabled. */
  type Flags = f: nat | f < 256

  datatype Op = Gcode | Jog | Toolchange

  datatype Zone = Zone(xMin: real, yMin: real, zMin: real, xMax: real, yMax: real, zMax: real, flags: Flags) {

    predicate Enabled() { flags / 8 % 2 == 1 }

    predicate Allows(op: Op) {
      match op
      case Gcode => flags % 2 == 1
      case Jog => flags / 2 % 2 == 1
      case Toolchange => flags / 4 % 2 == 1
    }

    /** The zone takes part in the check of an operation: it is enabled and does not permit it. */
    predicate Bans(op: Op) {
      Enabled() && !Allows(op)
    }

    /** Both Z bounds zero means the zone blocks at all depths. */
    predicate ZUndefined() { zMin == 0.0 && zMax == 0.0 }

    function Dims(): nat { if ZUndefined() then 2 else 3 }

    function FullBox(): (b: Box)
      ensures b.Valid()
    {
      Box(Dims(), [xMin, yMin, zMin], [xMax, yMax, zMax])
    }

    function ShrunkBox(): (b: Box)
      ensures b.Valid()
    {
      Box(Dims(), [xMin + TOLERANCE, yMin + TOLERANCE, zMin + TOLERANCE],
                  [xMax - TOLERANCE, yMax - TOLERANCE, zMax - TOLERANCE])
    }

    predicate Normalised() { xMin <= xMax && yMin <= yMax && zMin <= zMax }
  }

  const ZERO_ZONE := Zone(0.0, 0.0, 0.0, 0.0, 0.0, 0.0, 0)

  /** zone_normalize: each pair of bounds is put in order. */
  function Normalise(z: Zone): (r: Zone)
    ensures r.Normalised()
    ensures z.Normalised() ==> r == z
    ensures {r.xMin, r.xMax} == {z.xMin, z.xMax} && {r.yMin, r.yMax} == {z.yMin, z.yMax} && {r.zMin, r.zMax} == {z.zMin, z.zMax}
    ensures r.flags == z.flags && (r.ZUndefined() <==> z.ZUndefined())
  {
    var a := if z.xMin > z.xMax then z.(xMin := z.xMax, xMax := z.xMin) else z;
    var b := if a.yMin > a.yMax then a.(yMin := a.yMax, yMax := a.yMin) else a;
    if b.zMin > b.zMax then b.(zMin := b.zMax, zMax := b.zMin) else b
  }

  predicate PointInZone(z: Zone, p: Point) {
    && z.xMin <= p[X] <= z.xMax && z.yMin <= p[Y] <= z.yMax
    && (z.ZUndefined() || z.zMin <= p[Z] <= z.zMax)
  }

  /** Strictly inside by more than the tolerance. */
  predicate PointDeepInZone(z: Zone, p: Point) {
    && z.xMin + TOLERANCE < p[X] < z.xMax - TOLERANCE && z.yMin + TOLERANCE < p[Y] < z.yMax - TOLERANCE
    && (z.ZUndefined() || z.zMin + TOLERANCE < p[Z] < z.zMax - TOLERANCE)
  }

  /** The move spends more than an instant in the tolerance-shrunk zone. */
  ghost predicate CrossesZone(z: Zone, p0: Point, p1: Point) {
    Crosses(z.ShrunkBox(), p0, p1)
  }

  /** The loop of segment_intersects_zone and of clip_to_zone_boundary, which differ only in the box they are given:
      narrow [t0, t1] axis by axis, giving up as soon as it is empty. */
  method LiangBarsky(dims: nat, lo: seq<real>, hi: seq<real>, p0: Point, p1: Point) returns (met: bool, t0: real, t1: real)
    requires Box(dims, lo, hi).Valid()
    ensures met ==> Window(Slopes(Box(dims, lo, hi), p0, p1), Offsets(Box(dims, lo, hi), p0), 2 * dims, t0, t1)
    ensures !met ==> Infeasible(Slopes(Box(dims, lo, hi), p0, p1), Offsets(Box(dims, lo, hi), p0))
  {
    t0, t1 := 0.0, 1.0;
    var d := [p1[0] - p0[0], p1[1] - p0[1], p1[2] - p0[2]];
    ghost var b := Box(dims, lo, hi);
    ghost var p, q := Slopes(b, p0, p1), Offsets(b, p0);
    for i := 0 to dims
      invariant Window(p, q, 2 * i, t0, t1)
    {
      var pNeg, qNeg := -d[i], p0[i] - lo[i];
      var pPos, qPos := d[i], hi[i] - p0[i];
      assert p[2 * i] == pNeg && q[2 * i] == qNeg && p[2 * i + 1] == pPos && q[2 * i + 1] == qPos;
      if pNeg == 0.0 && pPos == 0.0 {
        FlatCut(p, q, 2 * i, t0, t1);
        if qNeg >= 0.0 { FlatCut(p, q, 2 * i + 1, t0, t1); }
        if qNeg < 0.0 || qPos < 0.0 { return false, t0, t1; }
      } else {
        var t := qNeg / pNeg;
        Cut(p, q, 2 * i, t0, t1);
        if pNeg < 0.0 {
          if t > t1 { return false, t0, t1; }
          if t > t0 { t0 := t; }
        } else {
          if t < t0 { return false, t0, t1; }
          if t < t1 { t1 := t; }
        }
        t := qPos / pPos;
        Cut(p, q, 2 * i + 1, t0, t1);
        if pPos < 0.0 {
          if t > t1 { return false, t0, t1; }
          if t > t0 { t0 := t; }
        } else {
          if t < t0 { return false, t0, t1; }
          if t < t1 { t1 := t; }
        }
      }
    }
    met := true;
  }

  method SegmentIntersectsZone(z: Zone, p0: Point, p1: Point) returns (r: bool)
    ensures r <==> CrossesZone(z, p0, p1)
  {
    var dims := if z.ZUndefined() then 2 else 3;
    var lo := [z.xMin + TOLERANCE, z.yMin + TOLERANCE, z.zMin + TOLERANCE];
    var hi := [z.xMax - TOLERANCE, z.yMax - TOLERANCE, z.zMax - TOLERANCE];
    var met, t0, t1 := LiangBarsky(dims, lo, hi, p0, p1);
    if met { WindowDecides(z.ShrunkBox(), p0, p1, t0, t1); } else { InfeasibleDecides(z.ShrunkBox(), p0, p1); }
    return met && t0 < t1;
  }

  /** Where a move that is clipped against the full-size zone ends: X and Y (and Z, unless the zone blocks at all depths)
      are those of the first entry, every other coordinate is the requested one. */
  ghost function ClippedEnd(z: Zone, p0: Point, p1: Point): Point
    requires Enters(z.FullBox(), p0, p1)
  {
    var t := EntryTime(z.FullBox(), p0, p1);
    [Coord(p0, p1, t, X), Coord(p0, p1, t, Y), if z.ZUndefined() then p1[Z] else Coord(p0, p1, t, Z), p1[3], p1[4]]
  }

  /** memcpy of a whole point. */
  method CopyPoint(to: array<real>, from: Point)
    requires to.Length == N_AXIS
    modifies to
    ensures to[..] == from
  {
    for i := 0 to N_AXIS
      invariant to[..i] == from[..i]
    {
      to[i] := from[i];
    }
  }

  method ClipToZoneBoundary(z: Zone, start: Point, end: Point, clipped: array<real>) returns (r: bool)
    requires clipped.Length == N_AXIS
    modifies clipped
    ensures r <==> Enters(z.FullBox(), start, end)
    ensures clipped[..] == if r then ClippedEnd(z, start, end) else old(clipped[..])
  {
    var dims := if z.ZUndefined() then 2 else 3;
    var lo, hi := [z.xMin, z.yMin, z.zMin], [z.xMax, z.yMax, z.zMax];
    var met, t0, t1 := LiangBarsky(dims, lo, hi, start, end);
    if !met {
      InfeasibleDecides(z.FullBox(), start, end);
      return false;
    }
    WindowDecides(z.FullBox(), start, end, t0, t1);
    if t0 > 0.0 {
      CopyPoint(clipped, end);
      assert clipped[Z] == clipped[..][Z] && clipped[3] == clipped[..][3] && clipped[4] == clipped[..][4];
      clipped[X] := start[X] + t0 * (end[X] - start[X]);
      clipped[Y] := start[Y] + t0 * (end[Y] - start[Y]);
      if !z.ZUndefined() {
        clipped[Z] := start[Z] + t0 * (end[Z] - start[Z]);
      }
      ghost var q := ClippedEnd(z, start, end);
      assert clipped[0] == q[0];
      assert clipped[1] == q[1];
      assert clipped[2] == q[2];
      assert clipped[3] == q[3];
      assert clipped[4] == q[4];
      assert clipped[..] == q;
      return true;
    }
    return false;
  }

  /** The clip gives up exactly when the move misses the zone or starts in it (boundary included). */
  lemma ClipFailsIff(z: Zone, p0: Point, p1: Point)
    ensures Enters(z.FullBox(), p0, p1) <==>
      !PointInZone(z, p0) && exists t: real :: 0.0 <= t <= 1.0 && InsideAt(z.FullBox(), p0, p1, t)
  {
    var b := z.FullBox();
    assert InsideAt(b, p0, p1, 0.0) <==> PointInZone(z, p0);
    if Enters(b, p0, p1) {
      var u := EntryTime(b, p0, p1);
      assert InsideAt(b, p0, p1, u);
    } else if !PointInZone(z, p0) && exists t: real :: 0.0 <= t <= 1.0 && InsideAt(b, p0, p1, t) {
      var t: real :| 0.0 <= t <= 1.0 && InsideAt(b, p0, p1, t);
      ConstraintsMeanInside(b, p0, p1, t);
      var t0, t1 := WindowExists(Slopes(b, p0, p1), Offsets(b, p0), 2 * b.dims, t);
      ConstraintsMeanInside(b, p0, p1, 0.0);
      WindowDecides(b, p0, p1, t0, t1);
    }
  }

  lemma ScaledBelow(e: real, s: real, d: real, m: real)
    requires 0.0 <= m && (if d < 0.0 then -d else d) * e <= m && -e <= s <= e
    ensures -m <= s * d <= m
  {
    if d < 0.0 { MulOrder(s, e, -d); MulOrder(-e, s, -d); } else { MulOrder(s, e, d); MulOrder(-e, s, d); }
  }

  predicate Within(x: real, m: real) { -m <= x <= m }

  /** Any finite step can be scaled down to stay within a given distance. */
  lemma SmallStep(d: real, m: real) returns (e: real)
    requires 0.0 < m
    ensures 0.0 < e && forall s: real :: Within(s, e) ==> Within(s * d, m)
  {
    var a := 1.0 + if d < 0.0 then -d else d;
    e := m / a;
    assert a * e == m;
    assert e > 0.0 by { if e <= 0.0 { MulOrder(e, 0.0, a); } }
    forall s: real | Within(s, e) ensures Within(s * d, m) {
      ScaledBelow(e, s, d, m);
    }
  }

  function Min(a: real, b: real): (r: real)
    ensures r <= a && r <= b && (r == a || r == b)
  {
    if a < b then a else b
  }

  /** Strictly inside along one axis, hence still inside for a while before and after. */
  lemma StaysInSlab(lo: real, hi: real, p0: Point, p1: Point, t: real, i: nat) returns (e: real)
    requires i < N_AXIS && lo < Coord(p0, p1, t, i) < hi
    ensures 0.0 < e && forall s: real :: t - e <= s <= t + e ==> lo <= Coord(p0, p1, s, i) <= hi
  {
    var c, d := Coord(p0, p1, t, i), p1[i] - p0[i];
    var m := Min(c - lo, hi - c);
    e := SmallStep(d, m);
    forall s: real | t - e <= s <= t + e ensures lo <= Coord(p0, p1, s, i) <= hi {
      assert Within(s - t, e) && Within((s - t) * d, m);
      assert (s - t) * d == s * d - t * d;
    }
  }

  /** A move with even one deep point crosses the zone; so a move that does not cross has no deep point,
      and testing the target for being deep before testing the move is redundant. */
  lemma DeepPointMeansCrossing(z: Zone, p0: Point, p1: Point, t: real)
    requires 0.0 <= t <= 1.0 && PointDeepInZone(z, At(p0, p1, t))
    ensures CrossesZone(z, p0, p1)
  {
    var b := z.ShrunkBox();
    var e0 := StaysInSlab(b.lo[0], b.hi[0], p0, p1, t, 0);
    var e1 := StaysInSlab(b.lo[1], b.hi[1], p0, p1, t, 1);
    var e := Min(e0, e1);
    if b.dims == 3 {
      var e2 := StaysInSlab(b.lo[2], b.hi[2], p0, p1, t, 2);
      e := Min(e, e2);
    }
    var a := if t - e < 0.0 then 0.0 else t - e;
    var c := Min(1.0, t + e);
    assert Dwells(b, p0, p1, a, c);
  }

  lemma DeepTargetMeansCrossing(z: Zone, p0: Point, p1: Point)
    requires PointDeepInZone(z, p1)
    ensures CrossesZone(z, p0, p1)
  {
    assert At(p0, p1, 1.0) == p1;
    DeepPointMeansCrossing(z, p0, p1, 1.0);
  }

  /** A zone narrower than a millimetre, twice the tolerance, along an axis it constrains never blocks anything. A zone
      whose Z bounds are not both zero constrains Z. */
  lemma NarrowZoneNeverBlocks(z: Zone, p0: Point, p1: Point)
    requires z.xMax - z.xMin < 1.0 || z.yMax - z.yMin < 1.0
      || ((z.zMin != 0.0 || z.zMax != 0.0) && z.zMax - z.zMin < 1.0)
    ensures !CrossesZone(z, p0, p1) && !PointDeepInZone(z, p1)
  {
    var b := z.ShrunkBox();
    forall a: real, c: real ensures !Dwells(b, p0, p1, a, c) {
      if 0.0 <= a < c <= 1.0 {
        assert !InsideAt(b, p0, p1, a);
      }
    }
  }

  /** ... and any wider zone does block: every move to its middle, at whatever depth if its Z bounds are both zero. */
  lemma WideZoneBlocks(z: Zone, p0: Point, p1: Point)
    requires z.xMax - z.xMin > 1.0 && z.yMax - z.yMin > 1.0
    requires p1[X] == (z.xMin + z.xMax) / 2.0 && p1[Y] == (z.yMin + z.yMax) / 2.0
    requires (z.zMin == 0.0 && z.zMax == 0.0) || (z.zMax - z.zMin > 1.0 && p1[Z] == (z.zMin + z.zMax) / 2.0)
    ensures PointDeepInZone(z, p1) && CrossesZone(z, p0, p1)
  {
    DeepTargetMeansCrossing(z, p0, p1);
  }

  /** The permission byte bit by bit: G-code, jogging and tool changes are allowed, the zone is enabled. */
  lemma FlagBits(z: Zone, gcode: nat, jog: nat, toolchange: nat, enabled: nat, rest: nat)
    requires gcode < 2 && jog < 2 && toolchange < 2 && enabled < 2 && rest < 16
    requires z.flags == gcode + 2 * jog + 4 * toolchange + 8 * enabled + 16 * rest
    ensures z.Bans(Gcode) <==> enabled == 1 && gcode == 0
    ensures z.Bans(Jog) <==> enabled == 1 && jog == 0
    ensures z.Bans(Toolchange) <==> enabled == 1 && toolchange == 0
  {
    assert z.flags / 2 == jog + 2 * toolchange + 4 * enabled + 8 * rest;
    assert z.flags / 4 == toolchange + 2 * enabled + 4 * rest;
    assert z.flags / 8 == enabled + 2 * rest;
  }

  /** Clipping a move against a zone leaves that zone uncrossed. */
  lemma ClippedClearsOwnZone(z: Zone, p0: Point, p1: Point)
    requires Enters(z.FullBox(), p0, p1)
    ensures !CrossesZone(z, p0, ClippedEnd(z, p0, p1))
  {
    EntryLeavesInnerUncrossed(z.FullBox(), z.ShrunkBox(), p0, p1, ClippedEnd(z, p0, p1), EntryTime(z.FullBox(), p0, p1));
  }

  /** Clipping against z does not make the move cross an uncrossed zone w, provided the clip shortens the move on all
      axes w looks at: z has a Z range of its own, or w has none, or the move is level. */
  lemma ClippedKeepsUncrossed(z: Zone, w: Zone, p0: Point, p1: Point)
    requires Enters(z.FullBox(), p0, p1) && !CrossesZone(w, p0, p1)
    requires !z.ZUndefined() || w.ZUndefined() || p1[Z] == p0[Z]
    ensures !CrossesZone(w, p0, ClippedEnd(z, p0, p1))
  {
    var t := EntryTime(z.FullBox(), p0, p1);
    var q := ClippedEnd(z, p0, p1);
    assert ShortensOn(w.Dims(), p0, p1, q, t);
    if CrossesZone(w, p0, q) {
      ShortenedCrosses(w.ShrunkBox(), p0, p1, q, t);
    }
  }
}

/** What the jog hook's zone loop guarantees about the move it lets through, and for which zone orders. */
module JogSafety {
  import opened Geometry
  import opened Zones
  import opened ExclusionZones

  /** How a zone takes part in the jog loop: not at all, as a keep-out at all depths, or as one with its own Z range. */
  datatype Kind = Idle | Planar | Solid

  function KindOf(z: Zone): Kind {
    if !z.Bans(Jog) then Idle else if z.ZUndefined() then Planar else Solid
  }

  function Kinds(zones: seq<Zone>): (k: seq<Kind>)
    ensures |k| == |zones| && forall i :: 0 <= i < |zones| ==> k[i] == KindOf(zones[i])
  {
    seq(|zones|, i requires 0 <= i < |zones| => KindOf(zones[i]))
  }

  /** Every all-depths zone comes before every zone with a Z range. */
  predicate PlanarFirst(kinds: seq<Kind>) {
    forall i, j :: 0 <= i < j < |kinds| ==> !(kinds[i] == Solid && kinds[j] == Planar)
  }

  /** The move let through, if any, crosses no zone that bans jogging. */
  ghost predicate JogClear(zones: seq<Zone>, pos: Point, target: Point) {
    match JogThrough(zones, pos, target)
    case Blocked => true
    case Through(q) => MoveAllowed(zones, Jog, pos, q)
  }

  /** A zone that is uncrossed before the remaining zones are applied is uncrossed after them. */
  lemma {:induction false} StaysUncrossed(zones: seq<Zone>, w: Zone, pos: Point, target: Point)
    requires !CrossesZone(w, pos, target)
    requires w.ZUndefined() || Planar !in Kinds(zones) || target[Z] == pos[Z]
    ensures match JogThrough(zones, pos, target) case Blocked => true case Through(q) => !CrossesZone(w, pos, q)
    decreases |zones|
  {
    if zones != [] {
      var z := zones[0];
      assert Kinds(zones)[0] == KindOf(z);
      assert Planar in Kinds(zones[1..]) ==> Planar in Kinds(zones) by {
        assert Kinds(zones)[1..] == Kinds(zones[1..]);
      }
      if z.Bans(Jog) && CrossesZone(z, pos, target) {
        if Enters(z.FullBox(), pos, target) {
          ClippedKeepsUncrossed(z, w, pos, target);
          ClippedStaysLevel(z, pos, target);
          StaysUncrossed(zones[1..], w, pos, ClippedEnd(z, pos, target));
        }
      } else {
        StaysUncrossed(zones[1..], w, pos, target);
      }
    }
  }

  lemma ClippedStaysLevel(z: Zone, pos: Point, target: Point)
    requires Enters(z.FullBox(), pos, target)
    ensures target[Z] == pos[Z] ==> ClippedEnd(z, pos, target)[Z] == pos[Z]
  {
  }

  /** Although a zone is not looked at again after later clips, the move let through is clear of all of them,
      for every level jog and, in a table that lists all-depths zones first, for every jog. */
  lemma {:induction false} JogIsClear(zones: seq<Zone>, pos: Point, target: Point)
    requires PlanarFirst(Kinds(zones)) || target[Z] == pos[Z]
    ensures JogClear(zones, pos, target)
    decreases |zones|
  {
    if zones != [] {
      var z, rest := zones[0], zones[1..];
      assert Kinds(zones)[1..] == Kinds(rest);
      assert PlanarFirst(Kinds(zones)) ==> PlanarFirst(Kinds(rest));
      assert PlanarFirst(Kinds(zones)) && KindOf(z) == Solid ==> Planar !in Kinds(rest) by {
        assert Kinds(zones)[0] == KindOf(z);
      }
      var end := if z.Bans(Jog) && CrossesZone(z, pos, target) && Enters(z.FullBox(), pos, target)
                 then ClippedEnd(z, pos, target) else target;
      if Enters(z.FullBox(), pos, target) {
        ClippedStaysLevel(z, pos, target);
        ClippedClearsOwnZone(z, pos, target);
      }
      JogIsClear(rest, pos, end);
      if z.Bans(Jog) && !CrossesZone(z, pos, end) {
        StaysUncrossed(rest, z, pos, end);
      }
      assert forall i :: 0 < i < |zones| ==> zones[i] == rest[i - 1];
    }
  }

  /** q stops a fraction t > 0 along the move in X and Y and a fraction u >= t along it in Z; further axes are as requested. */
  predicate Shape(pos: Point, target: Point, q: Point, t: real, u: real) {
    && 0.0 < t <= u <= 1.0
    && q[X] == Coord(pos, target, t, X) && q[Y] == Coord(pos, target, t, Y) && q[Z] == Coord(pos, target, u, Z)
    && q[3] == target[3] && q[4] == target[4]
  }

  lemma Fractions(s: real, v: real, e: real)
    requires 0.0 < s <= v <= 1.0 && 0.0 < e <= 1.0
    ensures 0.0 < s * e <= s && s * e <= v * e <= v
  {
    MulOrder(0.0, s, e); MulOrder(e, 1.0, s);
    MulOrder(s, v, e); MulOrder(e, 1.0, v);
  }

  lemma CoordsCompose(pos: Point, target: Point, mid: Point, q: Point, e: real, s: real, i: nat)
    requires i < N_AXIS && mid[i] == Coord(pos, target, e, i) && q[i] == Coord(pos, mid, s, i)
    ensures q[i] == Coord(pos, target, s * e, i) && s * 1.0 == s
  {
    ShortenedCoord(pos, target, mid, e, s, i);
  }

  /** Shortening an already shortened move. One that was cut in Z as well: */
  lemma SolidShapesCompose(pos: Point, target: Point, mid: Point, e: real, q: Point, s: real, v: real)
    requires 0.0 < e <= 1.0 && Shape(pos, target, mid, e, e) && Shape(pos, mid, q, s, v)
    ensures Shape(pos, target, q, s * e, v * e)
  {
    Fractions(s, v, e);
    CoordsCompose(pos, target, mid, q, e, s, X);
    CoordsCompose(pos, target, mid, q, e, s, Y);
    CoordsCompose(pos, target, mid, q, e, v, Z);
    hide Coord;
  }

  /** ... and one that kept the requested Z. */
  lemma PlanarShapesCompose(pos: Point, target: Point, mid: Point, e: real, q: Point, s: real, v: real)
    requires 0.0 < e <= 1.0 && Shape(pos, target, mid, e, 1.0) && Shape(pos, mid, q, s, v)
    ensures Shape(pos, target, q, s * e, v)
  {
    Fractions(s, v, e);
    CoordsCompose(pos, target, mid, q, e, s, X);
    CoordsCompose(pos, target, mid, q, e, s, Y);
    CoordsCompose(pos, target, mid, q, 1.0, v, Z);
    hide Coord;
  }

  lemma ClippedShape(z: Zone, pos: Point, target: Point)
    requires Enters(z.FullBox(), pos, target)
    ensures var e := EntryTime(z.FullBox(), pos, target);
      Shape(pos, target, ClippedEnd(z, pos, target), e, if z.ZUndefined() then 1.0 else e)
  {
  }

  /** The shape of every result; a jog that meets nothing is passed on unchanged. */
  lemma {:induction false} JogThroughShape(zones: seq<Zone>, pos: Point, target: Point) returns (t: real, u: real)
    requires JogThrough(zones, pos, target).Through?
    ensures Shape(pos, target, JogThrough(zones, pos, target).end, t, u)
    ensures MoveAllowed(zones, Jog, pos, target) ==> JogThrough(zones, pos, target).end == target
    decreases |zones|
  {
    if zones == [] {
      t, u := 1.0, 1.0;
    } else {
      var z := zones[0];
      assert MoveAllowed(zones, Jog, pos, target) ==> MoveAllowed(zones[1..], Jog, pos, target);
      if z.Bans(Jog) && CrossesZone(z, pos, target) {
        var s, v := JogThroughShape(zones[1..], pos, ClippedEnd(z, pos, target));
        ClippedShape(z, pos, target);
        var mid, e, q := ClippedEnd(z, pos, target), EntryTime(z.FullBox(), pos, target), JogThrough(zones, pos, target).end;
        if z.ZUndefined() {
          t, u := s * e, v;
          PlanarShapesCompose(pos, target, mid, e, q, s, v);
        } else {
          t, u := s * e, v * e;
          SolidShapesCompose(pos, target, mid, e, q, s, v);
        }
      } else {
        t, u := JogThroughShape(zones[1..], pos, target);
      }
    }
  }

  /** A jog from outside that meets no zone goes through as requested. */
  lemma {:induction false} NothingMet(zones: seq<Zone>, pos: Point, target: Point)
    requires MoveAllowed(zones, Jog, pos, target)
    requires forall i :: 0 <= i < |zones| && zones[i].Bans(Jog) ==> !PointDeepInZone(zones[i], pos)
    ensures JogThrough(zones, pos, target) == Through(target)
    decreases |zones|
  {
    if zones != [] {
      assert forall i :: 0 < i < |zones| ==> zones[i] == zones[1..][i - 1];
      NothingMet(zones[1..], pos, target);
    }
  }

  /** A jog that starts in no zone that bans jogging, boundaries included, is never blocked altogether. */
  lemma {:induction false} NeverBlockedOutside(zones: seq<Zone>, pos: Point, target: Point)
    requires forall i :: 0 <= i < |zones| && zones[i].Bans(Jog) ==> !PointInZone(zones[i], pos)
    ensures JogThrough(zones, pos, target).Through?
    decreases |zones|
  {
    if zones != [] {
      var z := zones[0];
      assert forall i :: 0 < i < |zones| ==> zones[i] == zones[1..][i - 1];
      if z.Bans(Jog) && CrossesZone(z, pos, target) {
        CrossingEnters(z, pos, target);
        NeverBlockedOutside(zones[1..], pos, ClippedEnd(z, pos, target));
      } else {
        NeverBlockedOutside(zones[1..], pos, target);
      }
    }
  }

  lemma CrossingEnters(z: Zone, pos: Point, target: Point)
    requires CrossesZone(z, pos, target) && !PointInZone(z, pos)
    ensures Enters(z.FullBox(), pos, target)
  {
    var a, c :| Dwells(z.ShrunkBox(), pos, target, a, c);
    assert InsideAt(z.ShrunkBox(), pos, target, a);
    assert InsideAt(z.FullBox(), pos, target, a);
    ClipFailsIff(z, pos, target);
  }

  lemma {:induction false} JogThroughConcat(a: seq<Zone>, b: seq<Zone>, pos: Point, target: Point)
    ensures JogThrough(a + b, pos, target) ==
      match JogThrough(a, pos, target) case Blocked => Blocked case Through(q) => JogThrough(b, pos, q)
    decreases |a|
  {
    if a == [] {
      assert a + b == b;
    } else {
      assert (a + b)[0] == a[0] && (a + b)[1..] == a[1..] + b;
      var end := if a[0].Bans(Jog) && CrossesZone(a[0], pos, target) && Enters(a[0].FullBox(), pos, target)
                 then ClippedEnd(a[0], pos, target) else target;
      JogThroughConcat(a[1..], b, pos, end);
    }
  }

  // A jog that descends beyond a solid zone, and a planar zone that cuts it short but leaves it all of its descent.
  const SOLID := Zone(0.0, 0.0, 0.0, 10.0, 10.0, 10.0, 8)
  const PLANAR := Zone(20.0, 0.0, 0.0, 40.0, 10.0, 0.0, 8)
  const START: Point := [5.0, 5.0, 19.5, 0.0, 0.0]
  const REQUEST: Point := [35.0, 5.0, -40.5, 0.0, 0.0]
  const CUT_SHORT: Point := [20.0, 5.0, -40.5, 0.0, 0.0]

  /** A zone of the given kind that no move can cross. */
  function Filler(k: Kind): (z: Zone)
    ensures KindOf(z) == k && z.xMax - z.xMin < 2.0 * TOLERANCE
  {
    match k
    case Idle => ZERO_ZONE
    case Planar => ZERO_ZONE.(flags := 8)
    case Solid => ZERO_ZONE.(zMax := 1.0, flags := 8)
  }

  lemma RequestMissesSolid()
    ensures !CrossesZone(SOLID, START, REQUEST)
  {
    var b := SOLID.ShrunkBox();
    forall a: real, c: real ensures !Dwells(b, START, REQUEST, a, c) {
      if 0.0 <= a < c <= 1.0 {
        // in Z only from 1/6 on, in X only until 3/20
        assert !InsideAt(b, START, REQUEST, a);
      }
    }
  }

  lemma PlanarCutsShort()
    ensures CrossesZone(PLANAR, START, REQUEST) && Enters(PLANAR.FullBox(), START, REQUEST)
    ensures ClippedEnd(PLANAR, START, REQUEST) == CUT_SHORT
    ensures JogThrough([PLANAR], START, REQUEST) == Through(CUT_SHORT)
  {
    var b := PLANAR.FullBox();
    assert EntersAt(b, START, REQUEST, 0.5);
    EntryTimeUnique(b, START, REQUEST, 0.5);
    assert ClippedEnd(PLANAR, START, REQUEST) == CUT_SHORT;
    DeepTargetMeansCrossing(PLANAR, START, REQUEST);
  }

  lemma CutShortCrossesSolid()
    ensures CrossesZone(SOLID, START, CUT_SHORT)
  {
    var p := At(START, CUT_SHORT, 0.25);
    assert p[X] == 8.75 && p[Y] == 5.0 && p[Z] == 4.5;
    DeepPointMeansCrossing(SOLID, START, CUT_SHORT, 0.25);
  }

  function BadTable(kinds: seq<Kind>, i: nat, j: nat): (zones: seq<Zone>)
    requires i < j < |kinds| && kinds[i] == Solid && kinds[j] == Planar
    ensures Kinds(zones) == kinds
  {
    seq(|kinds|, k requires 0 <= k < |kinds| => if k == i then SOLID else if k == j then PLANAR else Filler(kinds[k]))
  }

  /** Every table layout with a solid zone before a planar one has zones and a jog for which the move let through
      crosses a zone that bans it. */
  lemma WrongOrderFails(kinds: seq<Kind>, i: nat, j: nat)
    requires i < j < |kinds| && kinds[i] == Solid && kinds[j] == Planar
    ensures JogThrough(BadTable(kinds, i, j), START, REQUEST) == Through(CUT_SHORT)
    ensures !JogClear(BadTable(kinds, i, j), START, REQUEST)
  {
    var zones := BadTable(kinds, i, j);
    forall k, q: Point | 0 <= k < |zones| && k != i && k != j
      ensures !CrossesZone(zones[k], START, q)
    {
      NarrowZoneNeverBlocks(zones[k], START, q);
    }
    RequestMissesSolid();
    PlanarCutsShort();
    CutShortCrossesSolid();
    NothingMet(zones[..j], START, REQUEST);
    NothingMet(zones[j + 1..], START, CUT_SHORT);
    assert zones == zones[..j] + ([PLANAR] + zones[j + 1..]);
    JogThroughConcat([PLANAR], zones[j + 1..], START, REQUEST);
    JogThroughConcat(zones[..j], [PLANAR] + zones[j + 1..], START, REQUEST);
    assert zones[i] == SOLID;
  }

  /** The table order that makes the loop safe, exactly. */
  lemma OrderIsExact(kinds: seq<Kind>)
    ensures PlanarFirst(kinds) <==>
      forall zones: seq<Zone>, pos: Point, target: Point :: Kinds(zones) == kinds ==> JogClear(zones, pos, target)
  {
    if PlanarFirst(kinds) {
      forall zones: seq<Zone>, pos: Point, target: Point | Kinds(zones) == kinds ensures JogClear(zones, pos, target) {
        JogIsClear(zones, pos, target);
      }
    } else {
      var i: nat, j: nat :| i < j < |kinds| && kinds[i] == Solid && kinds[j] == Planar;
      WrongOrderFails(kinds, i, j);
    }
  }
}

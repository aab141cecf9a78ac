/** The Sienci ATCi keep-out: a second, independently written guard for one rectangle that blocks at all depths.
    Its four-constraint loops are proved against the same geometric meaning as the zone plugin's. */
module AtciKeepout {
  import opened Geometry
  import opened Clipping
  import opened Zones
  import opened Options
  import EZ = ExclusionZones

  datatype Source = Startup | Rack | Command | Macro

  /** What the jog hook does with one keep-out rectangle. */
  ghost function GuardJog(z: Zone, active: bool, prev: (Point, Point) -> Point, pos: Point, target: Point): Point {
    if !active then prev(target, pos)
    else if PointDeepInZone(z, pos) then pos
    else if !CrossesZone(z, pos, target) then prev(target, pos)
    else if Enters(z.FullBox(), pos, target) then ClippedEnd(z, pos, target)
    else pos
  }

  ghost predicate GuardMove(z: Zone, active: bool, pos: Point, target: Point) {
    active ==> !CrossesZone(z, pos, target)
  }

  class AtciKeepout {
    // settings $684-$687 and the flag bits of $683
    var cfgXMin: real
    var cfgYMin: real
    var cfgXMax: real
    var cfgYMax: real
    var pluginEnabled: bool
    var monitorRackPresence: bool
    var monitorTcMacro: bool
    // run-time state
    var xMin: real
    var yMin: real
    var xMax: real
    var yMax: real
    var enabled: bool
    var source: Source
    var tcMacroRunning: bool

    constructor ()
      ensures !Active()
    {
      cfgXMin, cfgYMin, cfgXMax, cfgYMax := 0.0, 0.0, 0.0, 0.0;
      xMin, yMin, xMax, yMax := 0.0, 0.0, 0.0, 0.0;
      pluginEnabled, monitorRackPresence, monitorTcMacro, enabled, tcMacroRunning := false, false, false, false, false;
      source := Startup;
    }

    /** The rectangle guarded right now, seen as an exclusion zone. */
    function Keepout(): (z: Zone)
      reads this
      ensures z.ZUndefined() && z.flags == 0x0C && (z.xMin, z.yMin, z.xMax, z.yMax) == (xMin, yMin, xMax, yMax)
    {
      Zone(xMin, yMin, 0.0, xMax, yMax, 0.0, 0x0C)
    }

    /** Guarding: the plugin is enabled and the guard switched on. */
    predicate Active(): (r: bool)
      reads this
      ensures !pluginEnabled || !enabled ==> !r
      ensures pluginEnabled && enabled ==> r
    {
      pluginEnabled && enabled
    }

    /** Take the configured corners in either order. */
    method KeepoutSet()
      modifies this`xMin, this`yMin, this`xMax, this`yMax
      ensures Keepout() == EZ.AtciZone(cfgXMin, cfgYMin, cfgXMax, cfgYMax)
    {
      xMin := if cfgXMin < cfgXMax then cfgXMin else cfgXMax;
      xMax := if cfgXMin < cfgXMax then cfgXMax else cfgXMin;
      yMin := if cfgYMin < cfgYMax then cfgYMin else cfgYMax;
      yMax := if cfgYMin < cfgYMax then cfgYMax else cfgYMin;
    }

    method SetKeepoutState(newState: bool, eventSource: Source)
      modifies this`enabled, this`source
      ensures enabled == newState && source == eventSource
    {
      if enabled != newState || source != eventSource {
        enabled, source := newState, eventSource;
      }
    }

    method ToolSelected()
      modifies this`enabled, this`source, this`tcMacroRunning
      ensures if monitorTcMacro then tcMacroRunning && !Active() && source == Macro
              else tcMacroRunning == old(tcMacroRunning) && enabled == old(enabled) && source == old(source)
    {
      if monitorTcMacro {
        tcMacroRunning := true;
        SetKeepoutState(false, Macro);
      }
    }

    method ToolChanged(rackIsInstalled: bool)
      modifies this`enabled, this`source, this`tcMacroRunning
      ensures if monitorTcMacro then !tcMacroRunning && enabled == rackIsInstalled && source == Rack
              else tcMacroRunning == old(tcMacroRunning) && enabled == old(enabled) && source == old(source)
    {
      if monitorTcMacro {
        tcMacroRunning := false;
        SetKeepoutState(rackIsInstalled, Rack);
      }
    }

    predicate DeepInside(x: real, y: real)
      reads this
    {
      x > xMin + TOLERANCE && x < xMax - TOLERANCE && y > yMin + TOLERANCE && y < yMax - TOLERANCE
    }

    method LineIntersectsKeepout(p0: Point, p1: Point) returns (r: bool)
      ensures r <==> CrossesZone(Keepout(), p0, p1)
    {
      var x0, y0, x1, y1 := p0[X], p0[Y], p1[X], p1[Y];
      var dx, dy := x1 - x0, y1 - y0;
      var t0, t1 := 0.0, 1.0;
      var p := [-dx, dx, -dy, dy];
      var q := [x0 - xMin - TOLERANCE, xMax - x0 - TOLERANCE, y0 - yMin - TOLERANCE, yMax - y0 - TOLERANCE];
      ghost var b := Keepout().ShrunkBox();
      assert p == Slopes(b, p0, p1) && q == Offsets(b, p0);
      for i := 0 to 4
        invariant Window(p, q, i, t0, t1)
      {
        if p[i] == 0.0 {
          FlatCut(p, q, i, t0, t1);
          if q[i] < 0.0 { InfeasibleDecides(b, p0, p1); return false; }
        } else {
          var t := q[i] / p[i];
          Cut(p, q, i, t0, t1);
          if p[i] < 0.0 {
            if t > t1 { InfeasibleDecides(b, p0, p1); return false; }
            if t > t0 { t0 := t; }
          } else {
            if t < t0 { InfeasibleDecides(b, p0, p1); return false; }
            if t < t1 { t1 := t; }
          }
        }
      }
      WindowDecides(b, p0, p1, t0, t1);
      return t0 < t1;
    }

    method CalculateClippedPoint(start: Point, end: Point) returns (r: bool, clipped: Point)
      ensures r <==> Enters(Keepout().FullBox(), start, end)
      ensures r ==> clipped == ClippedEnd(Keepout(), start, end)
    {
      var x0, y0, x1, y1 := start[X], start[Y], end[X], end[Y];
      var t0, t1 := 0.0, 1.0;
      var dx, dy := x1 - x0, y1 - y0;
      var p := [-dx, dx, -dy, dy];
      var q := [x0 - xMin, xMax - x0, y0 - yMin, yMax - y0];
      ghost var b := Keepout().FullBox();
      assert p == Slopes(b, start, end) && q == Offsets(b, start);
      clipped := end;
      for i := 0 to 4
        invariant Window(p, q, i, t0, t1)
      {
        if p[i] == 0.0 {
          FlatCut(p, q, i, t0, t1);
          if q[i] < 0.0 { InfeasibleDecides(b, start, end); return false, end; }
        } else {
          var t := q[i] / p[i];
          Cut(p, q, i, t0, t1);
          if p[i] < 0.0 {
            if t > t1 { InfeasibleDecides(b, start, end); return false, end; }
            if t > t0 { t0 := t; }
          } else {
            if t < t0 { InfeasibleDecides(b, start, end); return false, end; }
            if t < t1 { t1 := t; }
          }
        }
      }
      WindowDecides(b, start, end, t0, t1);
      if t0 > 0.0 {
        clipped := end[X := x0 + t0 * dx][Y := y0 + t0 * dy];
        ghost var c := ClippedEnd(Keepout(), start, end);
        assert clipped[0] == c[0];
        assert clipped[1] == c[1];
        assert clipped == c;
        return true, clipped;
      }
      return false, end;
    }

    method TravelLimitsCheck(target: Point, planPosition: Option<Point>, prev: Point -> bool) returns (r: bool)
      ensures r <==> GuardMove(Keepout(), Active(), EZ.PlanOr0(planPosition), target) && prev(target)
    {
      if !Active() {
        return prev(target);
      }
      var p0 := EZ.PlanOr0(planPosition);
      if DeepInside(target[X], target[Y]) {
        DeepTargetMeansCrossing(Keepout(), p0, target);
        return false;
      }
      var hit := LineIntersectsKeepout(p0, target);
      if hit { return false; }
      return prev(target);
    }

    method ApplyTravelLimits(target: array<real>, position: array<real>, prev: (Point, Point) -> Point)
      requires target.Length == N_AXIS && position.Length == N_AXIS && target != position
      modifies target
      ensures target[..] == GuardJog(Keepout(), Active(), prev, position[..], old(target[..]))
    {
      var pos: Point, wanted: Point := position[..], target[..];
      if !Active() {
        CopyPoint(target, prev(wanted, pos));
        return;
      }
      if DeepInside(pos[X], pos[Y]) {
        CopyPoint(target, pos);
        return;
      }
      var intersects := LineIntersectsKeepout(pos, wanted);
      if DeepInside(wanted[X], wanted[Y]) { DeepTargetMeansCrossing(Keepout(), pos, wanted); }
      if DeepInside(wanted[X], wanted[Y]) || intersects {
        var ok, clipped := CalculateClippedPoint(pos, wanted);
        if ok {
          CopyPoint(target, clipped);
        } else {
          CopyPoint(target, pos);
        }
        return;
      }
      CopyPoint(target, prev(wanted, pos));
    }
  }
}

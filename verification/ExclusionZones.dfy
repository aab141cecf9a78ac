/** The exclusion-zone plugin: its zone table, its commands and its two travel-limit hooks. */
module ExclusionZones {
  import opened Geometry
  import opened Zones
  import opened Options

  /** The settings record saved to and loaded from non-volatile storage. */
  datatype Config = Config(count: nat, globalEnabled: bool, zones: seq<Zone>) {
    /** What every command keeps: at most sixteen zones, those in use with ordered bounds, the rest blank. */
    predicate Valid() {
      && |zones| == EZ_MAX_ZONES && count <= EZ_MAX_ZONES
      && (forall i :: 0 <= i < count ==> zones[i].Normalised())
      && (forall i :: count <= i < EZ_MAX_ZONES ==> zones[i] == ZERO_ZONE)
    }
  }

  datatype JogResult = Blocked | Through(end: Point)

  /** What the jog hook's loop makes of a move: each zone that bans jogging either leaves it alone, shortens it or blocks it. */
  ghost function JogThrough(zones: seq<Zone>, pos: Point, target: Point): JogResult {
    if zones == [] then Through(target)
    else
      var z := zones[0];
      if !z.Bans(Jog) then JogThrough(zones[1..], pos, target)
      else if PointDeepInZone(z, pos) then Blocked
      else if !CrossesZone(z, pos, target) then JogThrough(zones[1..], pos, target)
      else if Enters(z.FullBox(), pos, target) then JogThrough(zones[1..], pos, ClippedEnd(z, pos, target))
      else Blocked
  }

  /** No zone that bans the operation is crossed. */
  ghost predicate MoveAllowed(zones: seq<Zone>, op: Op, pos: Point, target: Point) {
    forall i :: 0 <= i < |zones| && zones[i].Bans(op) ==> !CrossesZone(zones[i], pos, target)
  }

  /** The table after $ZONE=slot: written in place, or appended behind blank fillers. */
  function SetSlot(table: seq<Zone>, slot: nat, z: Zone): (r: seq<Zone>)
    ensures |r| == if slot < |table| then |table| else slot + 1
    ensures r[slot] == z
    ensures forall i :: 0 <= i < |r| && i != slot ==> r[i] == if i < |table| then table[i] else ZERO_ZONE
  {
    if slot < |table| then table[slot := z]
    else table + seq(slot - |table|, _ => ZERO_ZONE) + [z]
  }

  function RemoveSlot(table: seq<Zone>, slot: nat): (r: seq<Zone>)
    requires slot < |table|
    ensures |r| == |table| - 1
    ensures forall i :: 0 <= i < |r| ==> r[i] == if i < slot then table[i] else table[i + 1]
  {
    table[..slot] + table[slot + 1..]
  }

  /** Zone 0 as the ATCi settings define it: no Z range, enabled, open to tool changes only. */
  function AtciZone(xMin: real, yMin: real, xMax: real, yMax: real): (z: Zone)
    ensures z.Normalised() && z.ZUndefined() && z.Bans(Gcode) && z.Bans(Jog) && !z.Bans(Toolchange)
    ensures {z.xMin, z.xMax} == {xMin, xMax} && {z.yMin, z.yMax} == {yMin, yMax} && z.flags == 0x0C
  {
    Zone(if xMin < xMax then xMin else xMax, if yMin < yMax then yMin else yMax, 0.0,
         if xMin < xMax then xMax else xMin, if yMin < yMax then yMax else yMin, 0.0, 0x0C)
  }

  function SyncedTable(table: seq<Zone>, zone0: Zone): seq<Zone> {
    [zone0] + if table == [] then [] else table[1..]
  }

  /** A $ZONE= line after scanning: how many fields were read and their values. */
  datatype ZoneArgs = ZoneArgs(parsed: nat, slot: nat, xMin: real, yMin: real, zMin: real, xMax: real, yMax: real, zMax: real, flags: nat)

  /** The flag byte stored for a command: an omitted or small flag word means "enabled as well". */
  function StoredFlags(parsed: nat, flags: nat): (f: Flags)
    ensures (parsed < 8 || flags < 8) ==> f / 8 % 2 == 1 && f % 8 == flags % 8
    ensures !(parsed < 8 || flags < 8) ==> f == flags % 256
  {
    var low := flags % 256;
    if (parsed < 8 || flags < 8) && low / 8 % 2 == 0 then low + 8 else low
  }

  datatype Status = Ok | InvalidStatement

  class ExclusionZones {
    var globalEnabled: bool
    var count: nat
    const zones: array<Zone>
    var tcMacroRunning: bool
    var nvs: Option<Config>

    ghost predicate Valid()
      reads this, zones
    {
      zones.Length == EZ_MAX_ZONES && Current().Valid() && (nvs.Some? ==> nvs.value.Valid())
    }

    ghost function Current(): Config
      reads this, zones
    {
      Config(count, globalEnabled, zones[..])
    }

    /** The zones in use. */
    ghost function Table(): seq<Zone>
      requires Valid()
      reads this, zones
    {
      zones[..count]
    }

    constructor ()
      ensures Valid() && fresh(zones)
      ensures Table() == [] && !tcMacroRunning && !globalEnabled && nvs.None? && zones.Length == 16
    {
      globalEnabled, count, tcMacroRunning, nvs := false, 0, false, None;
      zones := new Zone[EZ_MAX_ZONES](_ => ZERO_ZONE);
    }

    method Save()
      requires Valid()
      modifies this`nvs
      ensures Valid() && nvs == Some(Current())
    {
      nvs := Some(Config(count, globalEnabled, zones[..]));
    }

    method Restore()
      requires Valid()
      modifies this`nvs, this`count, this`globalEnabled, zones
      ensures Valid() && Table() == [] && globalEnabled && nvs == Some(Current())
    {
      count, globalEnabled := 0, true;
      forall i | 0 <= i < zones.Length { zones[i] := ZERO_ZONE; }
      Save();
    }

    /** Startup: whatever was saved last comes back, or the defaults if nothing can be read. */
    method Load()
      requires Valid()
      modifies this`nvs, this`count, this`globalEnabled, zones
      ensures Valid()
      ensures old(nvs.Some?) ==> Current() == old(nvs).value && nvs == old(nvs)
      ensures old(nvs.None?) ==> Table() == [] && globalEnabled && nvs == Some(Current())
    {
      if nvs.Some? {
        count, globalEnabled := nvs.value.count, nvs.value.globalEnabled;
        forall i | 0 <= i < zones.Length { zones[i] := nvs.value.zones[i]; }
        assert zones[..] == nvs.value.zones;
      } else {
        Restore();
      }
      ghost var loaded := zones[..];
      for i := 0 to count
        modifies zones
        invariant zones[..] == loaded
      {
        zones[i] := Normalise(zones[i]);
        assert zones[..] == loaded[i := loaded[i]];
      }
    }

    /** Mirror the ATCi keep-out settings (absent ones read as 0) into zone 0. */
    method SyncZone0FromAtci(xMin: Option<real>, yMin: Option<real>, xMax: Option<real>, yMax: Option<real>)
      requires Valid()
      modifies this`count, zones
      ensures Valid()
      ensures Table() == SyncedTable(old(Table()), AtciZone(ValueOr0(xMin), ValueOr0(yMin), ValueOr0(xMax), ValueOr0(yMax)))
    {
      var a, b, c, d := ValueOr0(xMin), ValueOr0(yMin), ValueOr0(xMax), ValueOr0(yMax);
      zones[0] := Zone(if a < c then a else c, if b < d then b else d, 0.0, if a < c then c else a, if b < d then d else b, 0.0, 0x0C);
      if count < 1 {
        count := 1;
      }
      assert Table() == SyncedTable(old(Table()), AtciZone(a, b, c, d));
    }

    method SetGlobalEnabled(firstChar: char)
      requires Valid()
      modifies this`globalEnabled, this`nvs
      ensures Valid() && Table() == old(Table())
      ensures globalEnabled == (firstChar != '0') && nvs == Some(Current())
    {
      globalEnabled := firstChar != '0';
      Save();
    }

    /** $ZONE-n. The number is kept in a byte, so it counts modulo 256. */
    method DeleteZone(n: int) returns (status: Status)
      requires Valid()
      modifies this`count, this`nvs, zones
      ensures Valid()
      ensures status == if 1 <= n % 256 < old(count) then Ok else InvalidStatement
      ensures status == Ok ==> Table() == RemoveSlot(old(Table()), n % 256) && nvs == Some(Current())
      ensures status != Ok ==> Table() == old(Table()) && nvs == old(nvs)
    {
      var slot := n % 256;
      if slot == 0 { return InvalidStatement; }
      if slot >= count { return InvalidStatement; }
      forall i | slot <= i < count - 1 { zones[i] := zones[i + 1]; }
      count := count - 1;
      zones[count] := ZERO_ZONE;
      assert Table() == RemoveSlot(old(Table()), slot);
      Save();
      return Ok;
    }

    /** $ZONE=n,... */
    method SetZone(args: ZoneArgs) returns (status: Status)
      requires Valid()
      modifies this`count, this`nvs, zones
      ensures Valid()
      ensures status == if args.parsed >= 7 && 1 <= args.slot < EZ_MAX_ZONES then Ok else InvalidStatement
      ensures status == Ok ==> nvs == Some(Current()) && Table() == SetSlot(old(Table()), args.slot,
        Normalise(Zone(args.xMin, args.yMin, args.zMin, args.xMax, args.yMax, args.zMax, StoredFlags(args.parsed, args.flags))))
      ensures status != Ok ==> Table() == old(Table()) && nvs == old(nvs)
    {
      if args.parsed < 7 { return InvalidStatement; }
      if args.slot == 0 { return InvalidStatement; }
      if args.slot >= EZ_MAX_ZONES { return InvalidStatement; }
      var z := Zone(args.xMin, args.yMin, args.zMin, args.xMax, args.yMax, args.zMax, StoredFlags(args.parsed, args.flags));
      zones[args.slot] := z;
      zones[args.slot] := Normalise(zones[args.slot]);
      if args.slot >= count {
        count := args.slot + 1;
      }
      assert Table() == SetSlot(old(Table()), args.slot, Normalise(z));
      Save();
      return Ok;
    }

    method ToolSelected()
      modifies this`tcMacroRunning
      ensures tcMacroRunning
    {
      tcMacroRunning := true;
    }

    method ToolChanged()
      modifies this`tcMacroRunning
      ensures !tcMacroRunning
    {
      tcMacroRunning := false;
    }

    function CurrentOp(): (op: Op)
      reads this
      ensures op == Toolchange <==> tcMacroRunning
      ensures op == Gcode <==> !tcMacroRunning
    {
      if tcMacroRunning then Toolchange else Gcode
    }

    /** Unless exclusion is disabled, no zone that bans tool changes (while a tool-change macro runs) or G-code (otherwise)
        is crossed. */
    ghost predicate Allowed(from: Point, target: Point)
      requires Valid()
      reads this, zones
    {
      globalEnabled ==> MoveAllowed(Table(), if tcMacroRunning then Toolchange else Gcode, from, target)
    }

    /** The hook that accepts or rejects a move. The planner may have no position yet, which counts as the origin.
        `prev` is the hook installed before this one, as it answers at this moment. */
    method CheckTravel(target: Point, planPosition: Option<Point>, prev: Point -> bool) returns (r: bool)
      requires Valid()
      ensures r <==> Allowed(PlanOr0(planPosition), target) && prev(target)
    {
      if globalEnabled {
        var p0 := PlanOr0(planPosition);
        var op := CurrentOp();
        for i := 0 to count
          invariant MoveAllowed(zones[..i], op, p0, target)
        {
          var z := zones[i];
          if !z.Enabled() || z.Allows(op) { continue; }
          if PointDeepInZone(z, target) {
            DeepTargetMeansCrossing(z, p0, target);
            assert Table()[i] == z;
            return false;
          }
          var hit := SegmentIntersectsZone(z, p0, target);
          if hit {
            assert Table()[i] == z;
            return false;
          }
        }
      }
      return prev(target);
    }

    /** The zone loop of the jog hook. The answer tells whether the jog is passed on to the hook installed before; a jog
        that is not has been brought back to where it starts. */
    method ClipAgainstZones(target: array<real>, position: array<real>) returns (passOn: bool)
      requires Valid() && target.Length == N_AXIS && position.Length == N_AXIS && target != position
      modifies target
      ensures if !globalEnabled then passOn && target[..] == old(target[..])
        else match JogThrough(Table(), position[..], old(target[..]))
             case Blocked => !passOn && target[..] == position[..]
             case Through(q) => passOn && target[..] == q
    {
      if globalEnabled {
        var pos: Point := position[..];
        ghost var table, wanted := Table(), target[..];
        for i := 0 to count
          invariant Table() == table && position[..] == pos
          invariant JogThrough(table, pos, wanted) == JogThrough(table[i..], pos, target[..])
        {
          var z := zones[i];
          assert table[i..][0] == z && table[i..][1..] == table[i + 1..];
          if !z.Enabled() || z.Allows(Jog) { continue; }
          if PointDeepInZone(z, pos) {
            CopyPoint(target, pos);
            return false;
          }
          var t: Point := target[..];
          var targetInside := PointDeepInZone(z, t);
          if targetInside { DeepTargetMeansCrossing(z, pos, t); }
          var intersects := SegmentIntersectsZone(z, pos, t);
          if targetInside || intersects {
            var clipped := new real[N_AXIS](_ => 0.0);
            var ok := ClipToZoneBoundary(z, pos, t, clipped);
            if ok {
              CopyPoint(target, clipped[..]);
            } else {
              CopyPoint(target, pos);
              return false;
            }
          }
        }
        assert table[count..] == [];
      }
      return true;
    }

    /** The hook that shortens a jog. */
    method ApplyTravel(target: array<real>, position: array<real>, prev: (Point, Point) -> Point)
      requires Valid() && target.Length == N_AXIS && position.Length == N_AXIS && target != position
      modifies target
      ensures globalEnabled ==> match JogThrough(Table(), position[..], old(target[..]))
        case Blocked => target[..] == position[..]
        case Through(q) => target[..] == prev(q, position[..])
      ensures !globalEnabled ==> target[..] == prev(old(target[..]), position[..])
    {
      var passOn := ClipAgainstZones(target, position);
      if passOn {
        var end := prev(target[..], position[..]);
        CopyPoint(target, end);
      }
    }
  }

  function ValueOr0(v: Option<real>): (r: real)
    ensures v == Some(r) || (v == None && r == 0.0)
  {
    match v case None => 0.0 case Some(x) => x
  }

  /** Without a plan position the move is taken to start at the origin. */
  function PlanOr0(p: Option<Point>): (r: Point)
    ensures p == Some(r) || (p == None && forall i :: 0 <= i < N_AXIS ==> r[i] == 0.0)
  {
    match p case None => [0.0, 0.0, 0.0, 0.0, 0.0] case Some(q) => q
  }

  /** Deleting a zone never makes an accepted move rejected, and it forbids nothing that the zone itself did not. */
  lemma DeleteOnlyFrees(table: seq<Zone>, slot: nat, op: Op, pos: Point, target: Point)
    requires slot < |table|
    ensures MoveAllowed(table, op, pos, target) <==>
      MoveAllowed(RemoveSlot(table, slot), op, pos, target) && (table[slot].Bans(op) ==> !CrossesZone(table[slot], pos, target))
  {
    var rest := RemoveSlot(table, slot);
    if MoveAllowed(table, op, pos, target) {
      forall i | 0 <= i < |rest| && rest[i].Bans(op) ensures !CrossesZone(rest[i], pos, target) {
        assert rest[i] == table[if i < slot then i else i + 1];
      }
    }
    if MoveAllowed(rest, op, pos, target) {
      forall i | 0 <= i < |table| && i != slot && table[i].Bans(op) ensures !CrossesZone(table[i], pos, target) {
        assert table[i] == rest[if i < slot then i else i - 1];
      }
    }
  }

  /** Setting a zone beyond the end of the table adds that zone's own ban and nothing else: the gap it opens is disabled. */
  lemma GapIsHarmless(table: seq<Zone>, slot: nat, z: Zone, op: Op, pos: Point, target: Point)
    requires |table| <= slot
    ensures MoveAllowed(SetSlot(table, slot, z), op, pos, target) <==>
      MoveAllowed(table, op, pos, target) && (z.Bans(op) ==> !CrossesZone(z, pos, target))
  {
    var r := SetSlot(table, slot, z);
    assert forall i :: 0 <= i < |table| ==> r[i] == table[i];
  }

  /** Commands as they act on the table: set and delete reject slot 0 and slots out of range. */
  datatype Command = SetCommand(slot: nat, zone: Zone) | DeleteCommand(slot: nat)

  function AfterCommand(table: seq<Zone>, c: Command): seq<Zone> {
    match c
    case SetCommand(slot, z) => if 1 <= slot < EZ_MAX_ZONES then SetSlot(table, slot, Normalise(z)) else table
    case DeleteCommand(slot) => if 1 <= slot < |table| then RemoveSlot(table, slot) else table
  }

  function AfterCommands(table: seq<Zone>, cs: seq<Command>): seq<Zone>
    decreases |cs|
  {
    if cs == [] then table else AfterCommands(AfterCommand(table, cs[0]), cs[1..])
  }

  /** No run of $ZONE commands writes or deletes the ATCi zone, overfills the table or leaves bounds out of order. */
  lemma {:induction false} CommandsKeepTable(table: seq<Zone>, cs: seq<Command>)
    requires table != [] && |table| <= EZ_MAX_ZONES && forall i :: 0 <= i < |table| ==> table[i].Normalised()
    ensures var r := AfterCommands(table, cs);
      1 <= |r| <= EZ_MAX_ZONES && r[0] == table[0] && forall i :: 0 <= i < |r| ==> r[i].Normalised()
    decreases |cs|
  {
    if cs != [] {
      CommandsKeepTable(AfterCommand(table, cs[0]), cs[1..]);
    }
  }
}

/** The two plugin objects at work together: whatever is done to them, they do to the run model what its events say. */
module KeepoutPlugins {
  import opened Geometry
  import opened Zones
  import opened Options
  import opened ExclusionZones
  import opened KeepoutRuns
  import Atci = AtciKeepout

  /** What can happen to the machine and its plugins. Settings and commands take effect as the objects' methods say. */
  datatype Action =
    | MoveTo(target: Point) | Jog(target: Point)
    | SelectTool | ChangeTool(rackIsInstalled: bool)
    | Switch(on: bool) | Configure(xMin: real, yMin: real, xMax: real, yMax: real)
    | Mirror | SetZoneTo(args: ZoneArgs) | DropZone(n: int) | Exclusion(firstChar: char) | RestoreDefaults

  /** The state of the run model that the objects stand for. */
  ghost function Abstract(ez: ExclusionZones, atci: Atci.AtciKeepout, pos: Point): State
    requires ez.Valid()
    reads ez, ez.zones, atci
  {
    State(pos, ez.tcMacroRunning, InForceOf(ez.globalEnabled, ez.Table()), atci.Keepout(), atci.pluginEnabled && atci.enabled)
  }

  function InForceOf(enabled: bool, table: seq<Zone>): seq<Zone> {
    if enabled then table else []
  }

  function ZoneOf(args: ZoneArgs): Zone {
    Zone(args.xMin, args.yMin, args.zMin, args.xMax, args.yMax, args.zMax, StoredFlags(args.parsed, args.flags))
  }

  /** The events of the run model that an action amounts to. */
  ghost function EventsOf(ez: ExclusionZones, atci: Atci.AtciKeepout, a: Action): seq<Event>
    requires ez.Valid()
    reads ez, ez.zones, atci
  {
    var table := ez.Table();
    match a
    case MoveTo(target) => [Move(target)]
    case Jog(target) => [JogTo(target)]
    case SelectTool => [ToolSelected] + if atci.monitorTcMacro then [SetActive(false)] else []
    case ChangeTool(rack) => [ToolChanged] + if atci.monitorTcMacro then [SetActive(atci.pluginEnabled && rack)] else []
    case Switch(on) => [SetActive(atci.pluginEnabled && on)]
    case Configure(xMin, yMin, xMax, yMax) => [SetGuard(AtciZone(xMin, yMin, xMax, yMax))]
    case Mirror =>
      var zone0 := AtciZone(atci.cfgXMin, atci.cfgYMin, atci.cfgXMax, atci.cfgYMax);
      [SetTable(InForceOf(ez.globalEnabled, SyncedTable(table, zone0)))]
    case SetZoneTo(args) =>
      if args.parsed < 7 then []
      else [SetTable(InForceOf(ez.globalEnabled, AfterCommand(table, SetCommand(args.slot, ZoneOf(args)))))]
    case DropZone(n) => [SetTable(InForceOf(ez.globalEnabled, AfterCommand(table, DeleteCommand(n % 256))))]
    case Exclusion(c) => [SetTable(InForceOf(c != '0', table))]
    case RestoreDefaults => [SetTable([])]
  }

  ghost function After(core: Core, s: State, events: seq<Event>): State
    decreases |events|
  {
    if events == [] then s else After(core, Next(core, s, events[0]), events[1..])
  }

  lemma {:induction false} AfterIsLast(core: Core, s: State, events: seq<Event>)
    ensures After(core, s, events) == Run(core, s, events)[|events|]
    decreases |events|
  {
    if events != [] { AfterIsLast(core, Next(core, s, events[0]), events[1..]); }
  }

  lemma AfterOne(core: Core, s: State, e: Event)
    ensures After(core, s, [e]) == Next(core, s, e)
  {
    assert [e][1..] == [];
    assert After(core, Next(core, s, e), []) == Next(core, s, e);
  }

  lemma AfterTwo(core: Core, s: State, e: Event, f: Event)
    ensures [e] + [f] == [e, f] && After(core, s, [e] + [f]) == Next(core, Next(core, s, e), f)
  {
    assert [e, f][1..] == [f];
    AfterOne(core, Next(core, s, e), f);
  }

  lemma AfterNone(core: Core, s: State, e: Event)
    ensures After(core, s, []) == s && [e] + [] == [e]
  {
  }

  /** A G-code move: the zone plugin's hook, with the guard's hook, with the core's, behind it. */
  method CarryMove(ez: ExclusionZones, atci: Atci.AtciKeepout, core: Core, pos: Point, target: Point) returns (end: Point)
    requires ez.Valid()
    ensures Abstract(ez, atci, end) == Next(core, Abstract(ez, atci, pos), Move(target))
  {
    var behind := atci.TravelLimitsCheck(target, Some(pos), (q: Point) => core.check(pos, q));
    var accepted := ez.CheckTravel(target, Some(pos), (q: Point) => behind);
    end := if accepted then target else pos;
    assert MoveAllowed([], if ez.tcMacroRunning then Toolchange else Gcode, pos, target);
  }

  /** A jog: what the zone loop passes on goes to the guard's hook, with the core's limiter behind it. */
  method CarryJog(ez: ExclusionZones, atci: Atci.AtciKeepout, core: Core, pos: Point, target: Point) returns (end: Point)
    requires ez.Valid()
    ensures Abstract(ez, atci, end) == Next(core, Abstract(ez, atci, pos), JogTo(target))
  {
    var t, p := new real[N_AXIS](_ => 0.0), new real[N_AXIS](_ => 0.0);
    CopyPoint(t, target);
    CopyPoint(p, pos);
    var passOn := ez.ClipAgainstZones(t, p);
    if passOn {
      atci.ApplyTravelLimits(t, p, core.apply);
    }
    end := t[..];
  }

  method CarryToolChange(ez: ExclusionZones, atci: Atci.AtciKeepout, core: Core, pos: Point, a: Action)
    requires ez.Valid() && (a.SelectTool? || a.ChangeTool?)
    modifies ez`tcMacroRunning, atci
    ensures ez.Valid()
    ensures Abstract(ez, atci, pos) == After(core, old(Abstract(ez, atci, pos)), old(EventsOf(ez, atci, a)))
  {
    hide After, AtciZone, JogEnd, Accepts;
    ghost var s := Abstract(ez, atci, pos);
    match a
    case SelectTool =>
      AfterTwo(core, s, ToolSelected, SetActive(false));
      AfterOne(core, s, ToolSelected);
      AfterNone(core, s, ToolSelected);
      ez.ToolSelected();
      atci.ToolSelected();
    case ChangeTool(rack) =>
      AfterTwo(core, s, ToolChanged, SetActive(atci.pluginEnabled && rack));
      AfterOne(core, s, ToolChanged);
      AfterNone(core, s, ToolChanged);
      ez.ToolChanged();
      atci.ToolChanged(rack);
  }

  /** The guard's switches and its settings, which take effect at once. */
  method CarryGuard(ez: ExclusionZones, atci: Atci.AtciKeepout, core: Core, pos: Point, a: Action)
    requires ez.Valid() && (a.Switch? || a.Configure?)
    modifies atci
    ensures ez.Valid()
    ensures Abstract(ez, atci, pos) == After(core, old(Abstract(ez, atci, pos)), old(EventsOf(ez, atci, a)))
  {
    hide After, AtciZone, JogEnd, Accepts;
    ghost var s := Abstract(ez, atci, pos);
    match a
    case Switch(on) =>
      AfterOne(core, s, SetActive(atci.pluginEnabled && on));
      atci.SetKeepoutState(on, Atci.Command);
    case Configure(xMin, yMin, xMax, yMax) =>
      AfterOne(core, s, SetGuard(AtciZone(xMin, yMin, xMax, yMax)));
      atci.cfgXMin, atci.cfgYMin, atci.cfgXMax, atci.cfgYMax := xMin, yMin, xMax, yMax;
      atci.KeepoutSet();
  }

  method CarryCommand(ez: ExclusionZones, atci: Atci.AtciKeepout, core: Core, pos: Point, a: Action)
    requires ez.Valid() && (a.SetZoneTo? || a.DropZone?)
    modifies ez`count, ez`nvs, ez.zones
    ensures ez.Valid()
    ensures Abstract(ez, atci, pos) == After(core, old(Abstract(ez, atci, pos)), old(EventsOf(ez, atci, a)))
  {
    hide After, AtciZone, JogEnd, Accepts, StoredFlags, Normalise, SetSlot, RemoveSlot;
    ghost var s := Abstract(ez, atci, pos);
    AfterNone(core, s, Move(pos));
    ghost var events := EventsOf(ez, atci, a);
    if events != [] { assert events == [events[0]]; AfterOne(core, s, events[0]); }
    match a
    case SetZoneTo(args) => var status := ez.SetZone(args);
    case DropZone(n) => var status := ez.DeleteZone(n);
  }

  method CarryTable(ez: ExclusionZones, atci: Atci.AtciKeepout, core: Core, pos: Point, a: Action)
    requires ez.Valid() && (a.Mirror? || a.Exclusion? || a.RestoreDefaults?)
    modifies ez`count, ez`globalEnabled, ez`nvs, ez.zones
    ensures ez.Valid()
    ensures Abstract(ez, atci, pos) == After(core, old(Abstract(ez, atci, pos)), old(EventsOf(ez, atci, a)))
  {
    hide After, AtciZone, JogEnd, Accepts, StoredFlags, Normalise, SetSlot, RemoveSlot;
    ghost var s := Abstract(ez, atci, pos);
    AfterOne(core, s, EventsOf(ez, atci, a)[0]);
    match a
    case Mirror => ez.SyncZone0FromAtci(Some(atci.cfgXMin), Some(atci.cfgYMin), Some(atci.cfgXMax), Some(atci.cfgYMax));
    case Exclusion(c) => ez.SetGlobalEnabled(c);
    case RestoreDefaults => ez.Restore();
  }

  /** Every action does to the abstract state what its events say. */
  method Perform(ez: ExclusionZones, atci: Atci.AtciKeepout, core: Core, pos: Point, a: Action) returns (end: Point)
    requires ez.Valid()
    modifies ez, ez.zones, atci
    ensures ez.Valid()
    ensures Abstract(ez, atci, end) == After(core, old(Abstract(ez, atci, pos)), old(EventsOf(ez, atci, a)))
  {
    hide After, Next, AtciZone, StoredFlags;
    ghost var s := Abstract(ez, atci, pos);
    end := pos;
    match a
    case MoveTo(target) =>
      AfterOne(core, s, Move(target));
      end := CarryMove(ez, atci, core, pos, target);
    case Jog(target) =>
      AfterOne(core, s, JogTo(target));
      end := CarryJog(ez, atci, core, pos, target);
    case SelectTool => CarryToolChange(ez, atci, core, pos, a);
    case ChangeTool(_) => CarryToolChange(ez, atci, core, pos, a);
    case Switch(_) => CarryGuard(ez, atci, core, pos, a);
    case Configure(_, _, _, _) => CarryGuard(ez, atci, core, pos, a);
    case Mirror => CarryTable(ez, atci, core, pos, a);
    case SetZoneTo(_) => CarryCommand(ez, atci, core, pos, a);
    case DropZone(_) => CarryCommand(ez, atci, core, pos, a);
    case Exclusion(_) => CarryTable(ez, atci, core, pos, a);
    case RestoreDefaults => CarryTable(ez, atci, core, pos, a);
  }
}
